/** The RTK Query API slice: the authorization header, the session helpers,
    the `getAuthUser` query, the query parameters of `getProperties`, and the
    cache tags the endpoints provide and invalidate. `auth()` and
    `fetchWithBQ` are not called: the session and the fetch reply are inputs. */
module Api {
  import opened Wrappers
  import opened JsText
  import opened NextSession
  import opened Utils

  // ---------------------------------------------------------------------
  // session helpers and the authorization header
  // ---------------------------------------------------------------------

  /** `fetchAuthSession()`: `idToken` is `session?.user?.id || null`. */
  function FetchAuthSession(session: Option<Session>): Option<string> {
    var user := UserOf(session);
    if user.Some? && Truthy(user.value.id) then user.value.id else None
  }

  /** The token is the session user's id when that id is non-empty, and is
      absent otherwise. */
  lemma FetchAuthSessionToken(session: Option<Session>)
    ensures FetchAuthSession(session).Some?
        <==> UserOf(session).Some? && Truthy(UserOf(session).value.id)
    ensures FetchAuthSession(session).Some? ==> FetchAuthSession(session) == UserOf(session).value.id
    ensures FetchAuthSession(session).Some? ==> FetchAuthSession(session).value != ""
  {
  }

  /** What `getCurrentUser()` returns for a session with a user. */
  datatype CurrentUser = CurrentUser(userId: Option<string>, role: Option<string>, email: Option<string>)

  /** `getCurrentUser()`: the id, role and email of the session user, or
      `null` without one. */
  function GetCurrentUser(session: Option<Session>): (r: Option<CurrentUser>)
    ensures r.Some? <==> UserOf(session).Some?
  {
    match UserOf(session)
    case None => None
    case Some(u) => Some(CurrentUser(u.id, u.role, u.email))
  }

  /** The outgoing request headers, which `prepareHeaders` changes in place. */
  class Headers {
    var entries: map<string, string>

    constructor (initial: map<string, string>)
      ensures entries == initial
    {
      entries := initial;
    }

    /** `prepareHeaders(headers)`: set `Authorization` to a bearer of the
        session user's id when there is one; otherwise leave the headers.
        The bearer is the token `fetchAuthSession` reports. */
    method PrepareHeaders(session: Option<Session>)
      modifies this
      ensures FetchAuthSession(session).None? ==> entries == old(entries)
      ensures FetchAuthSession(session).Some?
              ==> entries == old(entries)["Authorization" := "Bearer " + FetchAuthSession(session).value]
    {
      var user := UserOf(session);
      if user.Some? && Truthy(user.value.id) {
        entries := entries["Authorization" := "Bearer " + user.value.id.value];
      }
    }
  }

  // ---------------------------------------------------------------------
  // getAuthUser
  // ---------------------------------------------------------------------

  /** The details endpoint as written: the manager endpoint only for the
      role text `"manager"`, compared exactly. */
  function DetailsEndpoint(userRole: Option<string>): string {
    if userRole == Some("manager") then "/managers/me" else "/tenants/me"
  }

  /** The details endpoint with the role compared in lower case, as the
      dashboard layout compares it. */
  function DetailsEndpointIntended(userRole: Option<string>): string {
    if userRole.Some? && LowerAscii(userRole.value) == "manager" then "/managers/me" else "/tenants/me"
  }

  /** As written, a user with the stored role `MANAGER` is sent to the tenant
      endpoint, so the manager endpoint is never chosen for the roles the
      application stores. */
  lemma ManagerEndpointNeverChosen()
    ensures DetailsEndpoint(Some(Manager)) == "/tenants/me"
    ensures DetailsEndpoint(Some(Tenant)) == "/tenants/me"
  {
    assert Manager != "manager" by { assert Manager[0] == 'M'; }
  }

  /** With the role compared in lower case, the stored roles pick their own
      endpoints, and a missing role falls back to the tenant endpoint. */
  lemma IntendedEndpointByRole()
    ensures DetailsEndpointIntended(Some(Manager)) == "/managers/me"
    ensures DetailsEndpointIntended(Some(Tenant)) == "/tenants/me"
    ensures DetailsEndpointIntended(Some("manager")) == "/managers/me"
    ensures DetailsEndpointIntended(None) == "/tenants/me"
  {
    assert LowerAscii(Manager) == "manager";
    assert LowerAscii(Tenant) == "tenant";
    assert LowerAscii("manager") == "manager";
  }

  /** The corrected choice agrees with the written one on the role text the
      written one expects. */
  lemma IntendedEndpointExtendsWritten(userRole: Option<string>)
    requires DetailsEndpoint(userRole) == "/managers/me"
    ensures DetailsEndpointIntended(userRole) == "/managers/me"
  {
    assert LowerAscii("manager") == "manager";
  }

  /** What the details fetch came to. */
  datatype DetailsReply =
    | Found(record: string)
    | Failed(status: int)
    | Threw(message: Option<string>)

  /** `userInfo`: the fetched record, or the stand-in record created after
      a 404. */
  datatype UserInfo = Stored(record: string) | Created(user: NewUser)

  datatype CognitoInfo = CognitoInfo(userId: Option<string>, username: Option<string>, email: Option<string>, role: Option<string>)

  datatype AuthUserData = AuthUserData(cognitoInfo: CognitoInfo, userInfo: Option<UserInfo>, userRole: Option<string>)

  /** The untyped user object `getCurrentUser` hands to
      `createNewUserInDatabase`: it has no `username` and no `attributes`. */
  function AsLooseUser(u: CurrentUser): LooseUser {
    LooseUser(u.userId, None, None)
  }

  /** `getAuthUser`'s query function. `endpoint` is the path requested from
      `fetchWithBQ` (none without a user) and `reply` is what that request
      came to. Only a 404 replaces the reply with a created record; any
      other failure leaves `userInfo` undefined. */
  method GetAuthUser(session: Option<Session>, reply: DetailsReply)
    returns (r: Result<AuthUserData, string>, endpoint: Option<string>)
    ensures GetCurrentUser(session).None? ==> r == Err("No authenticated user found") && endpoint.None?
    ensures GetCurrentUser(session).Some? ==> endpoint == Some(DetailsEndpointIntended(GetCurrentUser(session).value.role))
    ensures GetCurrentUser(session).Some? && reply.Threw?
            ==> r == Err(OrElse(reply.message, "Could not fetch user data"))
    ensures GetCurrentUser(session).Some? && !reply.Threw? ==> r.Ok?
    ensures r.Ok? ==> GetCurrentUser(session).Some?
    ensures r.Ok? ==> var u := GetCurrentUser(session).value;
      r.value.cognitoInfo == CognitoInfo(u.userId, u.email, u.email, u.role) && r.value.userRole == u.role
    ensures r.Ok? && reply.Found? ==> r.value.userInfo == Some(Stored(reply.record))
    ensures r.Ok? && reply == Failed(404)
            ==> r.value.userInfo == Some(Created(CreateNewUserInDatabase(AsLooseUser(GetCurrentUser(session).value))))
    ensures r.Ok? && reply.Failed? && reply.status != 404 ==> r.value.userInfo.None?
  {
    var user := GetCurrentUser(session);
    if user.None? {
      return Err("No authenticated user found"), None;
    }
    var userRole := user.value.role;
    var path := DetailsEndpointIntended(userRole);
    endpoint := Some(path);
    if reply.Threw? {
      return Err(OrElse(reply.message, "Could not fetch user data")), endpoint;
    }
    var userInfo: Option<UserInfo> := if reply.Found? then Some(Stored(reply.record)) else None;
    if reply.Failed? && reply.status == 404 {
      userInfo := Some(Created(CreateNewUserInDatabase(AsLooseUser(user.value))));
    }
    var u := user.value;
    r := Ok(AuthUserData(CognitoInfo(u.userId, u.email, u.email, u.role), userInfo, userRole));
  }

  /** A record created after a 404 has no name and an empty email and phone
      number, because the object passed carries neither `username` nor
      `attributes`. */
  lemma CreatedRecordIsBlank(u: CurrentUser)
    ensures CreateNewUserInDatabase(AsLooseUser(u)) == NewUser(u.userId, None, "", "")
  {
    CreateNewUserFields(AsLooseUser(u));
  }

  // ---------------------------------------------------------------------
  // getProperties
  // ---------------------------------------------------------------------

  /** The filters `getProperties` reads; every one may be missing. Ranges
      and coordinates are arrays of values. */
  datatype Filters = Filters(
    priceRange: Option<seq<ParamValue>>,
    beds: Option<string>,
    baths: Option<string>,
    propertyType: Option<string>,
    squareFeet: Option<seq<ParamValue>>,
    amenities: Option<seq<string>>,
    availableFrom: Option<string>,
    favoriteIds: Option<seq<string>>,
    coordinates: Option<seq<ParamValue>>)

  /** `arr?.[i]`: undefined when the array is missing or too short. */
  function At(arr: Option<seq<ParamValue>>, i: nat): ParamValue {
    if arr.Some? && i < |arr.value| then arr.value[i] else Undefined
  }

  /** A text filter that is dropped when it is `"any"`. */
  function UnlessAny(v: Option<string>): ParamValue {
    if v == Some("any") || v.None? then Undefined else Str(v.value)
  }

  /** A numeric filter: `Number(v)` unless `v` is `"any"`. `Number` of a
      missing value is NaN. */
  function NumberUnlessAny(v: Option<string>, toNumber: string -> ParamValue): ParamValue {
    if v == Some("any") then Undefined
    else if v.None? then NaN
    else toNumber(v.value)
  }

  /** `list?.join(",")` */
  function Joined(list: Option<seq<string>>): ParamValue {
    if list.Some? then Str(Join(list.value, ',')) else Undefined
  }

  /** The record built before cleaning, in its key order. `toNumber` stands
      for JavaScript's `Number` conversion of a string. */
  function RawPropertyParams(f: Filters, toNumber: string -> ParamValue): seq<(string, ParamValue)> {
    [("priceMin", At(f.priceRange, 0)),
     ("priceMax", At(f.priceRange, 1)),
     ("beds", NumberUnlessAny(f.beds, toNumber)),
     ("baths", NumberUnlessAny(f.baths, toNumber)),
     ("propertyType", UnlessAny(f.propertyType)),
     ("squareFeetMin", At(f.squareFeet, 0)),
     ("squareFeetMax", At(f.squareFeet, 1)),
     ("amenities", Joined(f.amenities)),
     ("availableFrom", UnlessAny(f.availableFrom)),
     ("favoriteIds", Joined(f.favoriteIds)),
     ("latitude", At(f.coordinates, 1)),
     ("longitude", At(f.coordinates, 0))]
  }

  /** `getProperties`' query: the `properties` url and the cleaned record. */
  function GetPropertiesParams(f: Filters, toNumber: string -> ParamValue): seq<(string, ParamValue)> {
    CleanParams(RawPropertyParams(f, toNumber))
  }

  /** A parameter is sent exactly when the builder produced it and it
      survives cleaning. */
  lemma PropertyParamsMembers(f: Filters, toNumber: string -> ParamValue, e: (string, ParamValue))
    ensures e in GetPropertiesParams(f, toNumber) <==> e in RawPropertyParams(f, toNumber) && Kept(e.1)
  {
    CleanParamsMembers(RawPropertyParams(f, toNumber), e);
  }

  /** The range bounds come from the ends of the price range, latitude from
      the second coordinate and longitude from the first; each is sent under
      its key when it survives cleaning. */
  lemma PropertyParamsSources(f: Filters, toNumber: string -> ParamValue)
    ensures Kept(At(f.priceRange, 0)) ==> ("priceMin", At(f.priceRange, 0)) in GetPropertiesParams(f, toNumber)
    ensures Kept(At(f.priceRange, 1)) ==> ("priceMax", At(f.priceRange, 1)) in GetPropertiesParams(f, toNumber)
    ensures Kept(At(f.coordinates, 1)) ==> ("latitude", At(f.coordinates, 1)) in GetPropertiesParams(f, toNumber)
    ensures Kept(At(f.coordinates, 0)) ==> ("longitude", At(f.coordinates, 0)) in GetPropertiesParams(f, toNumber)
  {
    var raw := RawPropertyParams(f, toNumber);
    PropertyParamsMembers(f, toNumber, raw[0]);
    PropertyParamsMembers(f, toNumber, raw[1]);
    PropertyParamsMembers(f, toNumber, raw[10]);
    PropertyParamsMembers(f, toNumber, raw[11]);
  }

  /** A sent latitude is the second coordinate. */
  lemma LatitudeIsSecond(f: Filters, toNumber: string -> ParamValue, v: ParamValue)
    ensures ("latitude", v) in GetPropertiesParams(f, toNumber) ==> v == At(f.coordinates, 1)
  {
    PropertyParamsMembers(f, toNumber, ("latitude", v));
  }

  /** A sent longitude is the first coordinate. */
  lemma LongitudeIsFirst(f: Filters, toNumber: string -> ParamValue, v: ParamValue)
    ensures ("longitude", v) in GetPropertiesParams(f, toNumber) ==> v == At(f.coordinates, 0)
  {
    PropertyParamsMembers(f, toNumber, ("longitude", v));
  }

  /** A sent latitude is the second coordinate and a sent longitude the
      first: the two are never swapped. */
  lemma CoordinatesNotSwapped(f: Filters, toNumber: string -> ParamValue, v: ParamValue)
    ensures ("latitude", v) in GetPropertiesParams(f, toNumber) ==> v == At(f.coordinates, 1)
    ensures ("longitude", v) in GetPropertiesParams(f, toNumber) ==> v == At(f.coordinates, 0)
  {
    LatitudeIsSecond(f, toNumber, v);
    LongitudeIsFirst(f, toNumber, v);
  }

  /** `beds: "any"` sends no `beds` parameter. */
  lemma AnyBedsOmitted(f: Filters, toNumber: string -> ParamValue, v: ParamValue)
    requires f.beds == Some("any")
    ensures ("beds", v) !in GetPropertiesParams(f, toNumber)
  {
    PropertyParamsMembers(f, toNumber, ("beds", v));
  }

  /** `baths: "any"` sends no `baths` parameter. */
  lemma AnyBathsOmitted(f: Filters, toNumber: string -> ParamValue, v: ParamValue)
    requires f.baths == Some("any")
    ensures ("baths", v) !in GetPropertiesParams(f, toNumber)
  {
    PropertyParamsMembers(f, toNumber, ("baths", v));
  }

  /** `propertyType: "any"` sends no `propertyType` parameter. */
  lemma AnyPropertyTypeOmitted(f: Filters, toNumber: string -> ParamValue, v: ParamValue)
    requires f.propertyType == Some("any")
    ensures ("propertyType", v) !in GetPropertiesParams(f, toNumber)
  {
    PropertyParamsMembers(f, toNumber, ("propertyType", v));
  }

  /** `availableFrom: "any"` sends no `availableFrom` parameter. */
  lemma AnyAvailableFromOmitted(f: Filters, toNumber: string -> ParamValue, v: ParamValue)
    requires f.availableFrom == Some("any")
    ensures ("availableFrom", v) !in GetPropertiesParams(f, toNumber)
  {
    PropertyParamsMembers(f, toNumber, ("availableFrom", v));
  }

  /** A filter set to `"any"` sends no parameter under its key. */
  lemma AnyFiltersOmitted(f: Filters, toNumber: string -> ParamValue)
    ensures f.beds == Some("any") ==> forall v :: ("beds", v) !in GetPropertiesParams(f, toNumber)
    ensures f.baths == Some("any") ==> forall v :: ("baths", v) !in GetPropertiesParams(f, toNumber)
    ensures f.propertyType == Some("any") ==> forall v :: ("propertyType", v) !in GetPropertiesParams(f, toNumber)
    ensures f.availableFrom == Some("any") ==> forall v :: ("availableFrom", v) !in GetPropertiesParams(f, toNumber)
  {
    forall v | f.beds == Some("any") ensures ("beds", v) !in GetPropertiesParams(f, toNumber) {
      AnyBedsOmitted(f, toNumber, v);
    }
    forall v | f.baths == Some("any") ensures ("baths", v) !in GetPropertiesParams(f, toNumber) {
      AnyBathsOmitted(f, toNumber, v);
    }
    forall v | f.propertyType == Some("any") ensures ("propertyType", v) !in GetPropertiesParams(f, toNumber) {
      AnyPropertyTypeOmitted(f, toNumber, v);
    }
    forall v | f.availableFrom == Some("any") ensures ("availableFrom", v) !in GetPropertiesParams(f, toNumber) {
      AnyAvailableFromOmitted(f, toNumber, v);
    }
  }

  /** The amenities travel as one comma-joined text; when it is neither
      empty nor `"any"` it is sent, and splitting it on commas gives the list back as long as no
      amenity contains a comma. */
  lemma AmenitiesRoundTrip(f: Filters, toNumber: string -> ParamValue)
    requires f.amenities.Some? && |f.amenities.value| >= 1
    requires forall i :: 0 <= i < |f.amenities.value| ==> ',' !in f.amenities.value[i]
    requires Join(f.amenities.value, ',') != "" && Join(f.amenities.value, ',') != "any"
    ensures ("amenities", Str(Join(f.amenities.value, ','))) in GetPropertiesParams(f, toNumber)
    ensures Split(Join(f.amenities.value, ','), ',') == f.amenities.value
  {
    var raw := RawPropertyParams(f, toNumber);
    assert raw[7] == ("amenities", Str(Join(f.amenities.value, ',')));
    PropertyParamsMembers(f, toNumber, raw[7]);
    SplitJoin(f.amenities.value, ',');
  }

  // ---------------------------------------------------------------------
  // cache tags
  // ---------------------------------------------------------------------

  datatype TagType = Managers | Tenants | Properties | PropertyDetails | Leases | Payments | Applications

  /** A tag id: a record's numeric id, a text id, or `result?.id` of a
      missing result. */
  datatype TagId = NumId(n: int) | TextId(s: string) | NoId

  /** A tag with an id, or a bare tag type (which matches every id). */
  datatype Tag = Tag(kind: TagType, id: TagId) | Whole(kind: TagType)

  const PropertiesList: Tag := Tag(Properties, TextId("LIST"))

  /** The tags of the property-list queries (`getProperties`,
      `getCurrentResidences`, `getManagerProperties`): one per property id,
      in order, then the list tag; without a result only the list tag. */
  function PropertyListTags(result: Option<seq<int>>): seq<Tag> {
    if result.None? then [PropertiesList]
    else seq(|result.value|, i requires 0 <= i < |result.value| => Tag(Properties, NumId(result.value[i]))) + [PropertiesList]
  }

  /** `result?.id` as a tag id. */
  function IdOf(result: Option<int>): TagId {
    if result.Some? then NumId(result.value) else NoId
  }

  /** `addFavoriteProperty` and `removeFavoriteProperty` invalidate the
      tenant returned and the property list. */
  function FavoriteTags(result: Option<int>): seq<Tag> {
    [Tag(Tenants, IdOf(result)), PropertiesList]
  }

  /** `getTenant`'s tag, and `updateTenantSettings`' invalidation. */
  function TenantTags(result: Option<int>): seq<Tag> {
    [Tag(Tenants, IdOf(result))]
  }

  /** `updateManagerSettings`' invalidation. */
  function ManagerTags(result: Option<int>): seq<Tag> {
    [Tag(Managers, IdOf(result))]
  }

  /** `getProperty(id)`'s tag. */
  function PropertyDetailsTags(id: string): seq<Tag> {
    [Tag(PropertyDetails, TextId(id))]
  }

  /** `createProperty` invalidates the property list and the manager of the
      created property (`result?.manager?.id`). */
  function CreatePropertyTags(managerId: Option<int>): seq<Tag> {
    [PropertiesList, Tag(Managers, IdOf(managerId))]
  }

  /** The bare tags of the lease, payment and application endpoints. */
  const LeasesTags: seq<Tag> := [Whole(Leases)]
  const PaymentsTags: seq<Tag> := [Whole(Payments)]
  const ApplicationsTags: seq<Tag> := [Whole(Applications)]
  const ApplicationStatusTags: seq<Tag> := [Whole(Applications), Whole(Leases)]

  /** Whether a tag id is truthy. RTK Query files a provided tag whose id
      is missing, `0` or `""` under its type alone, where no id lookup finds it. */
  predicate IdPresent(id: TagId) {
    match id
    case NumId(n) => n != 0
    case TextId(t) => t != ""
    case NoId => false
  }

  /** Whether an invalidated tag refreshes a provided one, as RTK Query
      decides it: the types must agree; a bare type or a tag whose id is
      undefined then matches every tag of that type, and a tag with an id
      matches the provided tags filed under that id. */
  predicate TagMatches(invalidated: Tag, provided: Tag) {
    invalidated.kind == provided.kind
    && (invalidated.Whole? || invalidated.id.NoId?
        || (provided.Tag? && IdPresent(provided.id) && provided.id == invalidated.id))
  }

  /** Whether invalidating `invalidated` refetches a query that provided
      `provided`. */
  predicate Refetches(invalidated: seq<Tag>, provided: seq<Tag>) {
    exists i, j :: 0 <= i < |invalidated| && 0 <= j < |provided| && TagMatches(invalidated[i], provided[j])
  }

  /** Whether a query provided some tag of the given type. */
  predicate ProvidesKind(provided: seq<Tag>, kind: TagType) {
    exists j :: 0 <= j < |provided| && provided[j].kind == kind
  }

  /** A tag whose id is undefined (`result?.id` of a missing result) is a
      wildcard: it refetches exactly the queries that provided any tag of
      its type. */
  lemma MissingIdIsWildcard(kind: TagType, provided: seq<Tag>)
    ensures Refetches([Tag(kind, NoId)], provided) <==> ProvidesKind(provided, kind)
  {
    if ProvidesKind(provided, kind) {
      var j :| 0 <= j < |provided| && provided[j].kind == kind;
      assert TagMatches([Tag(kind, NoId)][0], provided[j]);
    }
  }

  /** The property list tags name each returned property and end with the
      list tag. */
  lemma PropertyListTagsShape(result: Option<seq<int>>)
    ensures result.None? ==> PropertyListTags(result) == [PropertiesList]
    ensures result.Some? ==> |PropertyListTags(result)| == |result.value| + 1
    ensures result.Some? ==> forall i :: 0 <= i < |result.value| ==> PropertyListTags(result)[i] == Tag(Properties, NumId(result.value[i]))
    ensures PropertyListTags(result)[|PropertyListTags(result)| - 1] == PropertiesList
    ensures forall id :: Tag(Properties, NumId(id)) in PropertyListTags(result) <==> result.Some? && id in result.value
  {
    if result.Some? {
      var tags := PropertyListTags(result);
      forall id | Tag(Properties, NumId(id)) in tags
        ensures id in result.value
      {
        var i :| 0 <= i < |tags| && tags[i] == Tag(Properties, NumId(id));
        assert i < |result.value|;
      }
      forall id | id in result.value
        ensures Tag(Properties, NumId(id)) in tags
      {
        var i :| 0 <= i < |result.value| && result.value[i] == id;
        assert tags[i] == Tag(Properties, NumId(id));
      }
    }
  }

  /** Adding or removing a favourite refetches every property-list query,
      whatever either returned. */
  lemma FavoriteRefetchesPropertyLists(favorite: Option<int>, list: Option<seq<int>>)
    ensures Refetches(FavoriteTags(favorite), PropertyListTags(list))
  {
    PropertyListTagsShape(list);
    var tags := PropertyListTags(list);
    assert TagMatches(FavoriteTags(favorite)[1], tags[|tags| - 1]);
  }

  /** Adding or removing a favourite invalidates exactly the returned tenant
      and the property list. */
  lemma FavoriteTagsExact(favorite: Option<int>, t: Tag)
    ensures t in FavoriteTags(favorite) <==> t == Tag(Tenants, IdOf(favorite)) || t == PropertiesList
  {
  }

  /** Creating a property refetches the property lists whatever either
      returned; when the created property carries no manager id, it also
      refetches every query that provided a manager tag. */
  lemma MutationsRefetchTheirQueries(managerId: Option<int>, list: Option<seq<int>>, provided: seq<Tag>)
    ensures Refetches(CreatePropertyTags(managerId), PropertyListTags(list))
    ensures managerId.None? && ProvidesKind(provided, Managers) ==> Refetches(CreatePropertyTags(managerId), provided)
  {
    PropertyListTagsShape(list);
    var tags := PropertyListTags(list);
    assert TagMatches(CreatePropertyTags(managerId)[0], tags[|tags| - 1]);
    if managerId.None? && ProvidesKind(provided, Managers) {
      var j :| 0 <= j < |provided| && provided[j].kind == Managers;
      assert TagMatches(CreatePropertyTags(managerId)[1], provided[j]);
    }
  }

  /** Updating the tenant settings refetches the `getTenant` query whose
      result has the same, truthy, id and no query of another id; when the
      update returns no result it refetches every `getTenant` query. */
  lemma TenantSettingsRefetchesTenant(updated: Option<int>, fetched: Option<int>)
    ensures updated.Some? && fetched.Some?
            ==> (Refetches(TenantTags(updated), TenantTags(fetched)) <==> updated == fetched && updated.value != 0)
    ensures updated.None? ==> Refetches(TenantTags(updated), TenantTags(fetched))
  {
    if updated.None? {
      assert TagMatches(TenantTags(updated)[0], TenantTags(fetched)[0]);
    } else if fetched.Some? && updated == fetched && updated.value != 0 {
      assert TagMatches(TenantTags(updated)[0], TenantTags(fetched)[0]);
    }
  }

  /** Changing an application's status refetches exactly the queries that
      provided an Applications or a Leases tag: the application and lease
      lists, and not the payments. */
  lemma ApplicationStatusRefetches(provided: seq<Tag>)
    ensures Refetches(ApplicationStatusTags, provided)
        <==> ProvidesKind(provided, Applications) || ProvidesKind(provided, Leases)
    ensures Refetches(ApplicationStatusTags, LeasesTags) && Refetches(ApplicationStatusTags, ApplicationsTags)
    ensures !Refetches(ApplicationStatusTags, PaymentsTags)
  {
    if ProvidesKind(provided, Applications) {
      var j :| 0 <= j < |provided| && provided[j].kind == Applications;
      assert TagMatches(ApplicationStatusTags[0], provided[j]);
    } else if ProvidesKind(provided, Leases) {
      var j :| 0 <= j < |provided| && provided[j].kind == Leases;
      assert TagMatches(ApplicationStatusTags[1], provided[j]);
    }
    assert TagMatches(ApplicationStatusTags[1], LeasesTags[0]);
    assert TagMatches(ApplicationStatusTags[0], ApplicationsTags[0]);
  }

  /** Favourite changes never refetch a property's details or the leases. */
  lemma FavoriteLeavesDetails(favorite: Option<int>, id: string)
    ensures !Refetches(FavoriteTags(favorite), PropertyDetailsTags(id))
    ensures !Refetches(FavoriteTags(favorite), LeasesTags)
  {
  }
}
