# Rentiful client: a Dafny model of its routing, auth state and form logic

Rentiful is a rental-listing web client written with Next.js, React, Redux
Toolkit and next-auth. This project models the parts of the client that make
decisions, one Dafny module per source file:

- **The route guard** (`Middleware`). The middleware redirects the root path
  to the landing page and lets public routes through. A missing session goes
  to sign-in with a `callbackUrl`, and a signed-in visitor on an auth page
  goes to the dashboard.
- **The staged image list** of the property form (`PropertyImageUpload`).
  Dropped images are staged up to a cap and can be removed by id. They are
  marked uploaded when the upload service reports completion, and the
  pending ones are sent for upload. The parent page triggers that upload
  through a window event and waits on `window.uploadCallback`.
- **Auth state**, in two forms:
  - the Redux auth slice (`AuthSlice`), a reducer over `user`,
    `isAuthenticated`, `loading` and `error`, with a store class whose
    `Dispatch` updates the fields in place;
  - the browser-side `AuthService` singleton (`AuthService`), a class whose
    `token` and `user` fields are set by login, register and `setAuth`, and
    cleared by `clearAuth`, `logout` and a failed token check.
- **Shared helpers** (`Utils`): `formatEnumString`, `formatPriceValue`,
  `cleanParams` and the `createNewUserInDatabase` stand-in.
- **The RTK Query API slice** (`Api`):
  - the authorization header;
  - the session helpers;
  - the `getAuthUser` query;
  - the `getProperties` query parameters;
  - the cache tags every endpoint provides or invalidates.
- **The profile-image upload route** (`UploadProfileRoute`): its validation
  chain and the file name and url it derives.
- **Components and hooks**:
  - the user menu's initials and role badge (`UserProfile`);
  - the `useAuth` hook and its variants (`UseAuthHook`);
  - the `ProtectedRoute` wrapper (`ProtectedRoute`);
  - the OAuth success page (`AuthSuccess`);
  - the e-mail registration page (`RegisterPage`);
  - the `RegisterForm` component (`RegisterFormComponent`);
  - the `LoginForm` component (`LoginForm`).

Shared modules:

- `Wrappers`: `Option` and `Result`.
- `JsText`: the JavaScript string operations the code relies on:
  - `startsWith`;
  - `split`/`join` and `pop`;
  - `trim`;
  - ASCII case mapping;
  - truthiness and `||` fallbacks;
  - integer-to-text conversion.
- `Browser`: `File`.
- `NextSession`: the next-auth session, user and status.

Where the source updates state in place, the model is a class with
`modifies` clauses:

- the image picker;
- the auth store;
- the auth service;
- the request headers;
- the register page, register form and login form states.

Each class method is specified against a pure function, and the properties
are proved about that function as lemmas. Network replies, the clock and
`auth()` sessions are parameters of the operations that use them.

## Model

| member | source | states |
|---|---|---|
| Middleware.AnyRouteMatchesExists | src/middleware.ts:24-26 | The `some` scan over the public routes succeeds exactly when some listed route is a prefix of, or equal to, the path. |
| Middleware.PublicRouteIff | src/middleware.ts:15-31 | A path is public iff it starts with, or equals, one of the five listed routes. |
| Middleware.RootGoesToLanding | src/middleware.ts:10-12 | `/` is redirected to `/landing`, with or without a session. |
| Middleware.PublicPathProceeds | src/middleware.ts:28-31 | A public path other than `/` goes through without any session check. |
| Middleware.EveryRootedPathProceeds | src/middleware.ts:15-31 | Because `/` is listed and matched by prefix, every path starting with `/` other than `/` itself is public and goes through. |
| Middleware.MissingSessionGoesToSignIn | src/middleware.ts:34-38 | A non-public path without a session redirects to `/auth/signin` with the requested path as `callbackUrl`. |
| Middleware.SignInRedirectOnlyOffRoot | src/middleware.ts:15-38 | The sign-in redirect happens only without a session, and only for paths that do not start with `/`. |
| Middleware.DashboardRedirectUnreachable | src/middleware.ts:41-43 | The auth-page redirect to `/dashboard` is never produced, because `/auth/signin` and `/auth/register` paths are public first. |
| Middleware.DecisionOrder | src/middleware.ts:10-45 | The checks apply in the order root, public, session, auth page, proceed, and the first that applies fixes the single response. |
| Middleware.DashboardUnguarded | src/middleware.ts:15-31 | As written, `/dashboard` is served to a request without a session. |
| Middleware.IntendedGuardsProtectedPaths | src/middleware.ts:15-38 | With `/` matched exactly, a path outside the other public prefixes goes to sign-in without a session, with its own `callbackUrl`, and goes through with one. |
| Middleware.IntendedGuardsDashboard | src/middleware.ts:34-38 | With `/` matched exactly, `/dashboard` without a session goes to sign-in with `callbackUrl=/dashboard`. |
| PropertyImageUpload.SliceEnd | src/components/PropertyImageUpload.tsx:92 | The end index of `slice(0, end)` never exceeds the list length; a negative end counts back from the end. |
| PropertyImageUpload.Stage | src/components/PropertyImageUpload.tsx:92-97 | Each dropped file becomes, in order, a staged image with its given id and preview, not uploaded and without a url. |
| PropertyImageUpload.DropRespectsCap | src/components/PropertyImageUpload.tsx:92-103 | A drop on a list within the cap keeps it within the cap, and fills it as far as the dropped files allow. |
| PropertyImageUpload.DropWhenFull | src/components/PropertyImageUpload.tsx:92-112 | A drop on a list filled exactly to the cap, which is when the drop zone is disabled, adds nothing. |
| PropertyImageUpload.DropAppends | src/components/PropertyImageUpload.tsx:92-103 | A drop keeps the existing images as an unchanged prefix and appends the new ones in drop order, each not uploaded. |
| PropertyImageUpload.WithoutIdMembers | src/components/PropertyImageUpload.tsx:115-124 | Removal keeps exactly the images whose id differs from the one removed. |
| PropertyImageUpload.WithoutIdAppend | src/components/PropertyImageUpload.tsx:121 | Removal works piecewise over a concatenation, so the kept images keep their order. |
| PropertyImageUpload.WithoutAbsentId | src/components/PropertyImageUpload.tsx:121 | Removing an id that no image carries leaves the list unchanged. |
| PropertyImageUpload.FindByNameIsFirst | src/components/PropertyImageUpload.tsx:44 | `find` returns the first upload result whose name equals the file name. |
| PropertyImageUpload.FindByNameNone | src/components/PropertyImageUpload.tsx:44 | `find` comes back empty iff no result carries the name, and a found result is one of the results with that name. |
| PropertyImageUpload.CompletionUpdates | src/components/PropertyImageUpload.tsx:42-49 | Completion keeps each image's length, order, id, file and preview. A matched image becomes uploaded with its first match's url; an unmatched one is unchanged. |
| PropertyImageUpload.PendingFilesAppend | src/components/PropertyImageUpload.tsx:128 | The files to upload are collected piecewise, in list order. |
| PropertyImageUpload.PendingFilesMembers | src/components/PropertyImageUpload.tsx:127-133 | A file is sent iff some not-uploaded image holds it, and nothing is sent iff every image is uploaded. |
| PropertyImageUpload.DroppedFilesArePending | src/components/PropertyImageUpload.tsx:91-103 | After a drop, the pending files are the earlier pending files followed by the dropped files that fit. |
| PropertyImageUpload.StagedFilesPending | src/components/PropertyImageUpload.tsx:92-97 | Freshly staged images are all pending, in drop order. |
| PropertyImageUpload.ImagePicker.constructor | src/components/PropertyImageUpload.tsx:29-34 | The picker starts empty and not uploading, with `maxImages` defaulting to 10. |
| PropertyImageUpload.ImagePicker.OnDrop | src/components/PropertyImageUpload.tsx:91-104 | The list becomes the drop of the accepted files, and the cap is kept. `onImagesChange` receives the new list. Called on a full list, the callback changes nothing, though the zone never calls it then (line 112). |
| PropertyImageUpload.ImagePicker.RemoveImage | src/components/PropertyImageUpload.tsx:115-125 | The list loses the images with the id, the cap is kept, and `onImagesChange` receives the new list. |
| PropertyImageUpload.ImagePicker.OnClientUploadComplete | src/components/PropertyImageUpload.tsx:37-60 | Uploading stops and matched images are marked uploaded. `onImagesChange` receives the list. The urls returned are those of the results, or none; a waiting `window.uploadCallback` receives them and is cleared. |
| PropertyImageUpload.ImagePicker.OnUploadError | src/components/PropertyImageUpload.tsx:62-73 | Uploading stops and the list is unchanged. A waiting `window.uploadCallback` receives `null` and is cleared. |
| PropertyImageUpload.ImagePicker.UploadImages | src/components/PropertyImageUpload.tsx:127-141 | An upload starts iff some image is pending, with exactly the pending files; a rejected start clears the uploading flag. |
| PropertyImageUpload.ImagePicker.UploadImagesOf | src/components/PropertyImageUpload.tsx:127-141 | `uploadImages` run on a given list starts an upload iff that list has pending images, with exactly those files. |
| PropertyImageUpload.ImagePicker.OnUploadTriggerAsWritten | src/components/PropertyImageUpload.tsx:77-89 | The listener as written stores the callback but never starts an upload, whatever is staged, and never answers the callback. |
| PropertyImageUpload.ImagePicker.OnUploadTrigger | src/components/PropertyImageUpload.tsx:77-89 | The corrected listener stores the callback and starts an upload iff some staged image is pending, with exactly the pending files. |
| PropertyImageUpload.StaleTriggerNeverUploads | src/components/PropertyImageUpload.tsx:77-89 | With images pending, the first render's empty list yields no upload, while the current list yields exactly the pending files. |
| AuthSlice.InitialStateEmpty | src/state/authSlice.ts:34-39 | The initial state has no user, is not authenticated, is not loading, has no error, and satisfies the invariant. |
| AuthSlice.ReducePreservesConsistent | src/state/authSlice.ts:105-152 | Every reducer preserves `isAuthenticated ⇔ user ≠ null`, and `setUser` establishes it from any state. |
| AuthSlice.ReduceAllConsistent | src/state/authSlice.ts:105-152 | Any sequence of actions from a consistent state keeps the invariant. |
| AuthSlice.SetUserStores | src/state/authSlice.ts:112-115 | `setUser` stores the payload, sets the flag to whether it is present, and leaves loading and error alone. |
| AuthSlice.ClearErrorOnlyClearsError | src/state/authSlice.ts:109-111 | `clearError` clears the error and changes nothing else. |
| AuthSlice.PendingStartsLoading | src/state/authSlice.ts:120-136 | A pending login or register sets loading and clears the error, leaving the user and the flag. |
| AuthSlice.FulfilledStopsLoading | src/state/authSlice.ts:124-140 | A fulfilled login or register stops loading and clears the error, leaving the user and the flag. |
| AuthSlice.RejectedRecordsError | src/state/authSlice.ts:128-144 | A rejected login or register stops loading and records the rejection payload as the error. |
| AuthSlice.LogoutClears | src/state/authSlice.ts:146-150 | A fulfilled logout clears the user, the flag and the error, and leaves loading as it was. |
| AuthSlice.AuthStore.constructor | src/state/authSlice.ts:34-39 | The store starts in the initial state. |
| AuthSlice.AuthStore.Dispatch | src/state/authSlice.ts:105-152 | The in-place update gives the reducer's result for the action and keeps the invariant. |
| AuthService.UserFromReply | src/lib/auth.ts:70-75 | The stored user takes `userId` from the reply's `id` and copies email, role and name. |
| AuthService.AuthServiceState.constructor | src/lib/auth.ts:29-44 | The service starts with the token and user found in browser storage, or none. |
| AuthService.AuthServiceState.SetAuth | src/lib/auth.ts:117-128 | After `setAuth(t, u)` the token is `t` and the user is `u`; the service is authenticated iff `t` is non-empty. |
| AuthService.AuthServiceState.SetAuthData | src/lib/auth.ts:130-132 | `setAuthData(u, t)` has the effect of `setAuth(t, u)`. |
| AuthService.AuthServiceState.GetToken | src/lib/auth.ts:134-136 | Returns the stored token. |
| AuthService.AuthServiceState.GetUser | src/lib/auth.ts:138-140 | Returns the stored user. |
| AuthService.AuthServiceState.ClearAuth | src/lib/auth.ts:142-153 | Both fields are cleared and the service is not authenticated. |
| AuthService.AuthServiceState.Logout | src/lib/auth.ts:159-161 | Logging out clears both fields and the service is not authenticated. |
| AuthService.AuthServiceState.IsAuthenticated | src/lib/auth.ts:155-157 | True iff the token is present and non-empty and a user is stored. |
| AuthService.AuthServiceState.ValidateToken | src/lib/auth.ts:164-184 | Without a token it answers false and changes nothing. Otherwise it is true iff the probe is ok, and any other outcome clears both fields. |
| AuthService.AuthServiceState.Complete | src/lib/auth.ts:63-82 | A refused request fails with its message or the fallback, a thrown one is passed on, and neither changes state; an accepted one stores and returns the token and user. |
| AuthService.AuthServiceState.Login | src/lib/auth.ts:53-83 | Login completes with the fallback "Login failed". |
| AuthService.AuthServiceState.Register | src/lib/auth.ts:85-115 | Registration completes with the fallback "Registration failed". |
| Utils.SpaceBeforeUpperKeepsText | src/lib/utils.ts:10 | Inserting spaces before capitals adds nothing but white space. |
| Utils.SpaceBeforeUpperPrecedes | src/lib/utils.ts:10 | Every capital in the spaced text has a space right before it. |
| Utils.SpaceBeforeUpperNoCapitals | src/lib/utils.ts:10 | A text without capitals is unchanged by the spacing step. |
| Utils.TrimKeepsText | src/lib/utils.ts:10 | Trimming removes nothing but white space. |
| Utils.FormatEnumStringShape | src/lib/utils.ts:9-11 | The formatted name differs from the input only in white space and has no white space at either end. Each capital after the first character is preceded by a space. |
| Utils.InfixKeepsCapitalsSpaced | src/lib/utils.ts:9-11 | Cutting white space from the ends of the spaced name keeps every capital after the first character preceded by a space. |
| Utils.FormatEnumStringNoCapitals | src/lib/utils.ts:9-11 | A name with no capitals and no edge white space is returned unchanged. |
| Utils.PriceLabelDecodes | src/lib/utils.ts:13-21 | Reading a price label back gives the value; null and 0 give the "Any Min/Max Price" labels, which read back as no bound. |
| Utils.ThousandsLabelDecodes | src/lib/utils.ts:16-18 | A label for a whole number of thousands, in either the `$…k+` or the `<$…k` form, reads back as the value. |
| Utils.SmallLabelDecodes | src/lib/utils.ts:20 | A label for a non-zero value below 1000 reads back as the value. |
| Utils.MinLabelBody | src/lib/utils.ts:18-20 | A minimum label `$…+` is read from the text between the `$` and the `+`. |
| Utils.MaxLabelBody | src/lib/utils.ts:18-20 | A maximum label `<$…` is read from the text after the `<$`. |
| Utils.ThousandsAmount | src/lib/utils.ts:17-18 | An amount written as a decimal followed by `k` reads back as that number times 1000. |
| Utils.PlainAmount | src/lib/utils.ts:20 | An amount written as a plain decimal reads back as that number. |
| Utils.PriceLabelThousands | src/lib/utils.ts:16-20 | A non-zero label uses the `k` thousands form iff the value is at least 1000. |
| Utils.CleanParamsMembers | src/lib/utils.ts:23-35 | An entry survives iff it was present and its value is not undefined, NaN, "any", "" or null, and is not an array that is empty or all null. |
| Utils.CleanParamsAppend | src/lib/utils.ts:25-34 | Cleaning works entry by entry, so key order is preserved and no entry is added or changed. |
| Utils.CleanParamsKeepsClean | src/lib/utils.ts:25-34 | A record whose values all pass is returned unchanged. |
| Utils.CleanParamsIdempotent | src/lib/utils.ts:23-35 | Cleaning twice equals cleaning once. |
| Utils.CreateNewUserFields | src/lib/utils.ts:58-74 | The record's id is `userId` and its name is `username`. Its phone number is empty, and its email is `attributes.email` or "" when absent. |
| JsText.Split | src/components/UserProfile.tsx:40 | `split` yields at least one piece, and no piece contains the separator. |
| JsText.JoinSplit | src/components/UserProfile.tsx:40-42 | Joining the pieces of a split with the same separator gives the text back. |
| JsText.SplitJoin | src/state/api.ts:119 | Splitting a join of separator-free pieces gives the pieces back. |
| JsText.SplitCountsSeparators | src/app/api/upload/profile/route.ts:29 | A split gives one piece iff the separator does not occur. |
| JsText.LastPieceIsTail | src/app/api/upload/profile/route.ts:29 | `pop()` of a split is the separator-free tail after the last separator, or the whole text without one. |
| JsText.LastPieceStep | src/app/api/upload/profile/route.ts:29 | The first character belongs to the last piece only when it is not the separator and the rest contains no separator. |
| JsText.Trim | src/lib/utils.ts:10 | `trim()` is a contiguous part of the text that does not start or end in white space, and only white space is cut on either side. |
| JsText.TrimLo | src/lib/utils.ts:10 | `trim()` starts at the first character that is not white space; everything before it is white space. |
| JsText.TrimHi | src/lib/utils.ts:10 | `trim()` ends after the last character that is not white space; everything after it is white space. |
| JsText.UpperAscii | src/components/UserProfile.tsx:43 | The ASCII stand-in for `toUpperCase()`: each character is mapped on its own, `a`-`z` to `A`-`Z` and every other character to itself, so the length is kept. |
| JsText.LowerAscii | src/state/api.ts:68-69 | The ASCII stand-in for `toLowerCase()`, which the corrected endpoint choice applies to the role: `A`-`Z` map to `a`-`z`, every other character to itself, and the length is kept. |
| JsText.IntToDecimal | src/lib/utils.ts:18-20 | An integer's text is non-empty, made of digits and a sign, and ends in a digit. |
| JsText.IntDecimalRoundTrip | src/app/api/upload/profile/route.ts:30 | Parsing an integer's text gives the integer back. |
| Api.FetchAuthSessionToken | src/state/api.ts:15-22 | `idToken` is the session user's id when it is non-empty, and null otherwise. |
| Api.GetCurrentUser | src/state/api.ts:24-33 | A current user is returned iff the session has a user. |
| Api.Headers.constructor | src/state/api.ts:38 | The headers start as given. |
| Api.Headers.PrepareHeaders | src/state/api.ts:38-44 | `Authorization` is set to `Bearer` plus the session user's id when there is one; otherwise the headers are unchanged. |
| Api.ManagerEndpointNeverChosen | src/state/api.ts:66-69 | As written, the stored roles `MANAGER` and `TENANT` both select `/tenants/me`. |
| Api.IntendedEndpointByRole | src/state/api.ts:66-69 | Compared in lower case, `MANAGER` selects `/managers/me`, `TENANT` or no role selects `/tenants/me`. |
| Api.IntendedEndpointExtendsWritten | src/state/api.ts:66-69 | The corrected choice agrees with the written one on the role text the written one expects. |
| Api.GetAuthUser | src/state/api.ts:57-101 | No user gives "No authenticated user found", and a thrown error gives its message or "Could not fetch user data". Otherwise `cognitoInfo` copies the user, with the email as username. A 404 creates the record, and any other failure leaves `userInfo` undefined. |
| Api.CreatedRecordIsBlank | src/state/api.ts:78-83 | The record created after a 404 has the user's id, no name, and an empty email and phone number. |
| Api.PropertyParamsMembers | src/state/api.ts:109-127 | A parameter is sent iff the builder produced it and it survives `cleanParams`. |
| Api.PropertyParamsSources | src/state/api.ts:110-125 | `priceMin` and `priceMax` come from the price range's ends, `latitude` from `coordinates[1]` and `longitude` from `coordinates[0]`; each is sent when it survives cleaning. |
| Api.CoordinatesNotSwapped | src/state/api.ts:123-124 | A sent latitude is always the second coordinate and a sent longitude the first. |
| Api.LatitudeIsSecond | src/state/api.ts:123 | A sent latitude is the second coordinate. |
| Api.LongitudeIsFirst | src/state/api.ts:124 | A sent longitude is the first coordinate. |
| Api.AnyFiltersOmitted | src/state/api.ts:113-121 | A beds, baths, property-type or available-from filter set to "any" sends no parameter under its key. |
| Api.AnyBedsOmitted | src/state/api.ts:113 | `beds` set to "any" sends no `beds` parameter. |
| Api.AnyBathsOmitted | src/state/api.ts:114 | `baths` set to "any" sends no `baths` parameter. |
| Api.AnyPropertyTypeOmitted | src/state/api.ts:115-116 | `propertyType` set to "any" sends no `propertyType` parameter. |
| Api.AnyAvailableFromOmitted | src/state/api.ts:120-121 | `availableFrom` set to "any" sends no `availableFrom` parameter. |
| Api.AmenitiesRoundTrip | src/state/api.ts:119 | Amenities travel as one comma-joined parameter, and splitting it on commas gives the list back. |
| Api.PropertyListTagsShape | src/state/api.ts:129-135 | The list tags are one Properties tag per result id in order, then the LIST tag; without a result only the LIST tag. |
| Api.FavoriteRefetchesPropertyLists | src/state/api.ts:200-203 | Adding a favourite invalidates a tag that every property-list query provides. |
| Api.FavoriteTagsExact | src/state/api.ts:217-220 | Adding or removing a favourite invalidates exactly the returned tenant's tag and the Properties LIST tag. |
| Api.MutationsRefetchTheirQueries | src/state/api.ts:267-270 | Creating a property refetches every property-list query whatever either returned. Without a manager id in the result, it also refetches every query that provided a Managers tag. |
| Api.MissingIdIsWildcard | src/state/api.ts:186 | An invalidated tag whose id is undefined (`result?.id` of a missing result) refetches exactly the queries that provided a tag of its type. |
| Api.TenantSettingsRefetchesTenant | src/state/api.ts:156-186 | Updating the tenant settings with result id `n` refetches the `getTenant` query of result id `m` iff `m == n` and `n` is truthy. Without a result, every `getTenant` query is refetched. |
| Api.ApplicationStatusRefetches | src/state/api.ts:282-320 | `updateApplicationStatus` refetches exactly the queries that provided an Applications or a Leases tag. This includes the lease and application lists, and never the payments. |
| Api.FavoriteLeavesDetails | src/state/api.ts:200-203 | A favourite change never refetches property details or leases. |
| UploadProfileRoute.PostCheckOrder | src/app/api/upload/profile/route.ts:5-52 | The checks run in the order presence, type, size, storage; the first failure decides the 400 or 500 response and its message. |
| UploadProfileRoute.PostSucceedsIff | src/app/api/upload/profile/route.ts:5-52 | A url is returned iff an image file of at most 5 MiB is stored; every response is 200, 400 or 500. |
| UploadProfileRoute.SizeBoundary | src/app/api/upload/profile/route.ts:20-22 | Exactly 5·1024·1024 bytes passes and one byte more is refused. |
| UploadProfileRoute.ExtensionIsAfterLastDot | src/app/api/upload/profile/route.ts:29 | The extension has no dot: it is the text after the last `.`, or the whole name when there is none. |
| UploadProfileRoute.LastPieceAfterSeparator | src/app/api/upload/profile/route.ts:29-30 | After a separator, the last piece is the separator-free tail. |
| UploadProfileRoute.SavedNameKeepsExtension | src/app/api/upload/profile/route.ts:28-45 | The saved name and the url keep the upload's extension, and the url lies under `/uploads/profiles/profile-`. |
| UploadProfileRoute.SavedNameRecordsTime | src/app/api/upload/profile/route.ts:28-30 | The timestamp can be read back from the saved name. |
| UploadProfileRoute.SavedNamesDifferByTime | src/app/api/upload/profile/route.ts:28-30 | Uploads at different times are saved under different names. |
| UserProfile.TakeTwo | src/components/UserProfile.tsx:44 | `slice(0, 2)` is the prefix of length at most two. |
| UserProfile.FirstCharsOfSplit | src/components/UserProfile.tsx:39-42 | The first characters of the space-separated pieces are the word-starting characters of the name. |
| UserProfile.GetInitialsAreWordStarts | src/components/UserProfile.tsx:38-45 | The initials are the upper-cased first characters of the first two words, at most two characters. |
| UserProfile.WordStartsFromName | src/components/UserProfile.tsx:38-45 | Every word-starting character is a non-space character of the name. |
| UserProfile.TwoWordInitials | src/components/UserProfile.tsx:38-45 | A first and a last name give their two upper-cased first letters. |
| UserProfile.BlankNameHasNoInitials | src/components/UserProfile.tsx:58 | A name of spaces is truthy but yields empty initials. |
| UserProfile.RenderView | src/components/UserProfile.tsx:25-70 | Nothing renders without a user. The fallback is `U` iff the name is absent or empty, else the initials. The badge is `default` iff the label is Manager, iff the role is `MANAGER`. |
| UserProfile.RoleBadgeVariantIff | src/components/UserProfile.tsx:47-49 | The badge variant is `default` iff the role is `MANAGER`. |
| UseAuthHook.UseAuthFlags | src/hooks/useAuth.ts:17-23 | `isLoading` iff loading, `isAuthenticated` iff authenticated, never both; `user` is the session's user. |
| UseAuthHook.UseAuthRedirect | src/hooks/useAuth.ts:11-15 | The hook navigates, only to `/auth/signin`, iff `requireAuth` holds and the status is unauthenticated. |
| UseAuthHook.VariantsAgree | src/hooks/useAuth.ts:26-32 | `useRequireAuth` is the default call. `useOptionalAuth` is the same view without any redirect. |
| ProtectedRoute.UnauthenticatedGoesToLogin | src/components/ProtectedRoute.tsx:17-25 | Settled and unauthenticated: go to `/auth/login`, remembering the path unless it is the login page, before any role check. |
| ProtectedRoute.WrongRoleGoesToDashboard | src/components/ProtectedRoute.tsx:27-30 | Settled and authenticated with a required role the user lacks: go to `/dashboard`. |
| ProtectedRoute.ChildrenIff | src/components/ProtectedRoute.tsx:33-49 | Children render iff settled, authenticated, and no role is required or the user has it. Once settled, the effect does nothing iff they render; while loading, a spinner shows. |
| ProtectedRoute.StoredRolesNeverMatch | src/components/ProtectedRoute.tsx:27-30 | The required roles `tenant`/`manager` never equal the stored roles `TENANT`/`MANAGER`, so such users are sent to the dashboard. |
| ProtectedRoute.AsWrittenRedirectsWhileLoading | src/components/ProtectedRoute.tsx:13-33 | Wired as written, a loading session is pushed to `/auth/login` and nowhere else, since the hook does not push while loading. The spinner never shows. |
| ProtectedRoute.IntendedWaitsWhileLoading | src/components/ProtectedRoute.tsx:13-49 | Reading `isLoading`, a loading session shows the spinner and nothing is pushed. Settled sessions are handled as before. Signed out, the hook pushes `/auth/signin` and then the component pushes `/auth/login`, remembering the path. |
| ProtectedRoute.SignedInPushesOnlyOnMismatch | src/components/ProtectedRoute.tsx:13-49 | Signed in, the hook does not push. The component pushes nothing iff the children show, and otherwise pushes only `/dashboard`. |
| AuthSuccess.SuccessNavigationCases | src/app/auth/success/page.tsx:12-34 | The page goes to role selection iff authenticated with a flagged user, and to `/dashboard` iff with an unflagged user. It goes to `/auth/login` iff unauthenticated, and nowhere otherwise. |
| AuthSuccess.RoleSelectionParamsFields | src/app/auth/success/page.tsx:18-24 | The parameters are email, name, image, provider and providerId in that order, each its value or "". |
| AuthSuccess.QueryValueFinds | src/app/auth/success/page.tsx:18-25 | Looking a key up in the parameters finds its first occurrence. |
| AuthSuccess.RoleSelectionParamsReadBack | src/app/auth/success/page.tsx:18-25 | Reading the parameters back by key gives every non-empty profile field. |
| RegisterPage.WithFieldOnlyThatField | src/app/auth/register/page.tsx:43-45 | Changing a field sets that field and leaves every other one. |
| RegisterPage.ValidateCases | src/app/auth/register/page.tsx:50-58 | A form passes iff the passwords match and have at least 6 characters; a mismatch is reported before the length. |
| RegisterPage.PasswordLengthBoundary | src/app/auth/register/page.tsx:55-58 | Six characters pass and five are refused. |
| RegisterPage.PayloadDropsConfirmation | src/app/auth/register/page.tsx:60-66 | The payload carries email, password, name, phone number and role unchanged, and never the confirmation. |
| RegisterPage.SliceDrivesNavigation | src/app/auth/register/page.tsx:30-34 | From a signed-out state, the `isAuthenticated` effect redirects after `setUser` with a user, and never after the register thunk's own actions, clearing or logout. |
| RegisterPage.RejectionShownOnce | src/app/auth/register/page.tsx:36-41 | A rejected registration's message is shown once and then cleared, leaving the user. |
| RegisterPage.RegisterPageState.constructor | src/app/auth/register/page.tsx:18-25 | The form starts empty with the role `TENANT`. |
| RegisterPage.RegisterPageState.HandleInputChange | src/app/auth/register/page.tsx:43-45 | Only the form changes, by the one field. |
| RegisterPage.RegisterPageState.HandleEmailRegister | src/app/auth/register/page.tsx:47-72 | A failed check shows its message and dispatches nothing; otherwise the payload is dispatched, and a fulfilled one shows success and goes to `/dashboard`. |
| RegisterFormComponent.WithFieldOnlyThatField | src/components/RegisterForm.tsx:41-46 | Changing a field sets that field and leaves every other one. |
| RegisterFormComponent.RoleNotChecked | src/components/RegisterForm.tsx:25 | A form is incomplete iff one of email, password, name or phone number is empty, whatever the role. |
| RegisterFormComponent.SubmitErrorCases | src/components/RegisterForm.tsx:20-39 | An incomplete form gets "Please fill in all fields" and no call. A complete one calls `register`, then has no error after success, or the message or "Registration failed". |
| RegisterFormComponent.RegisterFormState.constructor | src/components/RegisterForm.tsx:8-16 | The form starts empty with role `tenant`, not loading, with no error. |
| RegisterFormComponent.RegisterFormState.HandleChange | src/components/RegisterForm.tsx:41-46 | Only the form data changes, by the one field. |
| RegisterFormComponent.RegisterFormState.HandleSubmit | src/components/RegisterForm.tsx:20-39 | The error is the submit's error, `register` is called once with the whole form exactly when it is complete, and loading ends false. |
| LoginForm.LoginResultCases | src/components/LoginForm.tsx:16-45 | Missing credentials are reported without a sign-in. A result error shows "Invalid credentials", and a thrown error shows its message or "Login failed". The form goes to `/dashboard` iff nothing failed. |
| LoginForm.InvalidCredentialsHidesReason | src/components/LoginForm.tsx:35-36 | The message for a refused sign-in does not depend on the reason given. |
| LoginForm.LoginFormState.constructor | src/components/LoginForm.tsx:9-13 | The form starts empty with role `TENANT`, not loading, with no error. |
| LoginForm.LoginFormState.HandleLogin | src/components/LoginForm.tsx:16-45 | The error is the submit's outcome, and `signIn` is requested exactly when both credentials are given. The form navigates iff the outcome says so, and loading ends false. |

## Left out

- Network I/O is not modelled. What `fetch`, `auth()`, `signIn`, `signOut`, `fetchWithBQ`, `register` and the register thunk return is a parameter of the operation that uses it.
- Browser persistence is not modelled: `localStorage`, `document.cookie`, and `sessionStorage` (the remembered path is returned as part of the effect instead).
- Toasts are recorded only on the register page, where they carry the validation result. Elsewhere they are UI output.
- The `withToast` wrapper and `cn` are not modelled.
- `URLSearchParams` percent-encoding is not modelled. The success page's parameters are returned as a key/value list.
- `Number(...)` conversion in `getProperties` is the `toNumber` parameter.
- `Math.random` ids and `URL.createObjectURL` previews are inputs of the drop, and `revokeObjectURL` is omitted.
- The upload-trigger event is modelled by its listener (`OnUploadTriggerAsWritten`, `OnUploadTrigger`); the promise the new-property page wraps around it is not part of this model.
- Each picker handler but the upload trigger sees the current list. The stale `stagedImages.length` closure of `onDrop` is not modelled. The trigger listener is registered once (`[]` dependencies) and keeps the first render's `uploadImages`, which sees the empty initial list; see Findings.
- The middleware's `matcher` configuration is not modelled, and neither are the role-selection and select-role pages, which are a presence check in front of a POST.
- Sign-out in the user menu and its loading flag are not modelled.
- The field handlers take a field from a fixed enumeration. A name outside the form's fields, which JavaScript would add as a new key, is not modelled.
- Case mapping and the capital test cover ASCII letters only.
- JsText.UpperAscii: maps ASCII letters only and keeps the length, whereas JavaScript's `toUpperCase()` maps every letter and can lengthen the text (`'ß'` becomes `"SS"`). Initials of names starting with a non-ASCII letter are therefore kept as typed.
- JsText.LowerAscii: maps ASCII letters only and keeps the length, whereas JavaScript's `toLowerCase()` maps every letter and can lengthen the text (`'İ'` becomes two code units).
- Api.TagMatches: RTK Query files ids as object keys, so a numeric id and its text (`5` and `"5"`) would match each other; the model keeps them apart. No endpoint here mixes the two for one tag type.
- Lengths are counted in characters, not UTF-16 code units.
- JavaScript `Headers` are case-insensitive; the model's header map is not.
- A route guard that redirects users who still need role selection is not in the code, so it is not modelled. Only the success page reads `needsRoleSelection`.
- Utils.FormatPriceValue: requires a value below 1000 or a whole number of thousands. The label for other values of 1000 or more shows a fractional quotient, because the model has no floating point.
- Api.AmenitiesRoundTrip: holds only for amenity names without commas whose comma-joined text is neither "" nor "any", because `cleanParams` drops those two texts.
- Api.GetAuthUser: chooses the endpoint with the corrected, case-insensitive role comparison (see Findings). The written comparison is `Api.DetailsEndpoint`.
- Utils.CreateNewUserFields: the token, role and fetch arguments of `createNewUserInDatabase` are unused by the source, so they are not parameters.

## Findings

| source | as written | input that shows it | evidently intended | confidence | as-written member | corrected member |
|---|---|---|---|---|---|---|
| src/middleware.ts:16 | `'/'` is in the public list and matched with `startsWith`, so every path beginning with `/` is public | a request for `/dashboard` with no session goes through | `/` public only as an exact match (it is already redirected at line 10), so protected paths without a session go to sign-in | not executed | Middleware.DashboardUnguarded | Middleware.IntendedGuardsDashboard |
| src/state/api.ts:68-69 | the role is compared to `"manager"` exactly, while the stored roles are `MANAGER`/`TENANT` | a user with role `MANAGER` requests `/tenants/me` | compare in lower case, as the dashboard layout does at src/app/(dashboard)/layout.tsx:25 | not executed | Api.ManagerEndpointNeverChosen | Api.IntendedEndpointByRole |
| src/components/ProtectedRoute.tsx:13 | `loading` is read from `useAuth()`, which returns `isLoading` and no `loading` (src/hooks/useAuth.ts:17-23) | status `loading`: the wrapper redirects to `/auth/login` and never shows its spinner | read `isLoading`, so the wrapper waits while the session loads | not executed | ProtectedRoute.AsWrittenRedirectsWhileLoading | ProtectedRoute.IntendedWaitsWhileLoading |
| src/components/PropertyImageUpload.tsx:77-89 | the `uploadStagedImages` listener is registered once, with `[]` dependencies, and calls the first render's `uploadImages`, whose `stagedImages` is the initial `[]` | the new-property page dispatches the event with one pending image: no upload starts and the callback is never answered, so the page's promise never resolves | read the current list (for example through a ref, or by re-registering when the list changes), so the pending images are uploaded and the callback answered | not executed | PropertyImageUpload.ImagePicker.OnUploadTriggerAsWritten | PropertyImageUpload.ImagePicker.OnUploadTrigger |
