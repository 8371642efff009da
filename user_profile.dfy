/** The user menu's display logic: the initials in the avatar fallback,
    the badge variant and the role label. Sign-out and navigation are not
    modelled. */
module UserProfile {
  import opened Wrappers
  import opened JsText
  import opened NextSession

  /** `pieces.map(n => n[0]).join('')`: the first character of each piece;
      an empty piece gives `undefined`, which `join` writes as nothing. */
  function FirstChars(pieces: seq<string>): string {
    if pieces == [] then []
    else (if pieces[0] == [] then [] else [pieces[0][0]]) + FirstChars(pieces[1..])
  }

  /** `s.slice(0, 2)` */
  function TakeTwo(s: string): (r: string)
    ensures |r| == if |s| < 2 then |s| else 2
    ensures r == s[..|r|]
  {
    if |s| <= 2 then s else s[..2]
  }

  /** `getInitials(name)` */
  function GetInitials(name: string): string {
    TakeTwo(UpperAscii(FirstChars(Split(name, ' '))))
  }

  /** The characters that start a word: not a space, and first or right
      after a space. `afterSpace` says whether the previous character was a
      space (or there was none). */
  function WordStartsFrom(s: string, afterSpace: bool): string {
    if s == [] then []
    else (if s[0] != ' ' && afterSpace then [s[0]] else []) + WordStartsFrom(s[1..], s[0] == ' ')
  }

  function WordStarts(s: string): string {
    WordStartsFrom(s, true)
  }

  /** The first characters of the pieces of a split on spaces are the
      characters that start a word; the pieces after the first give the
      word starts after a non-space. */
  lemma {:induction false} FirstCharsOfSplit(s: string)
    ensures FirstChars(Split(s, ' ')) == WordStartsFrom(s, true)
    ensures FirstChars(Split(s, ' ')[1..]) == WordStartsFrom(s, false)
  {
    if s != [] {
      FirstCharsOfSplit(s[1..]);
      var rest := Split(s[1..], ' ');
      if s[0] == ' ' {
        assert Split(s, ' ') == [[]] + rest;
        assert ([[]] + rest)[1..] == rest;
      } else {
        var pieces := [[s[0]] + rest[0]] + rest[1..];
        assert Split(s, ' ') == pieces;
        assert pieces[1..] == rest[1..];
        assert pieces[0][0] == s[0];
      }
    }
  }

  /** The initials are the upper-cased first characters of the first two
      words, in order; runs of spaces and spaces at the ends add nothing. */
  lemma GetInitialsAreWordStarts(name: string)
    ensures GetInitials(name) == TakeTwo(UpperAscii(WordStarts(name)))
    ensures |GetInitials(name)| <= 2
    ensures |GetInitials(name)| == if |WordStarts(name)| < 2 then |WordStarts(name)| else 2
  {
    FirstCharsOfSplit(name);
  }

  /** Every character that starts a word is a non-space character of the name. */
  lemma {:induction false} WordStartsFromName(s: string, afterSpace: bool)
    ensures forall c :: c in WordStartsFrom(s, afterSpace) ==> c in s && c != ' '
  {
    if s != [] {
      WordStartsFromName(s[1..], s[0] == ' ');
    }
  }

  /** Two words give the two upper-cased first letters. */
  lemma TwoWordInitials(first: string, last: string)
    requires first != [] && last != [] && ' ' !in first && ' ' !in last
    ensures GetInitials(first + " " + last) == [ToUpperAscii(first[0]), ToUpperAscii(last[0])]
  {
    var name := first + " " + last;
    SplitJoin([first, last], ' ');
    assert Join([first, last], ' ') == name;
    assert Split(name, ' ') == [first, last];
    assert [first, last][1..] == [last] && [last][1..] == [];
    assert FirstChars([last]) == [last[0]];
    assert FirstChars([first, last]) == [first[0], last[0]];
  }

  /** A name made only of spaces is truthy but has no initials. */
  lemma BlankNameHasNoInitials(n: nat)
    ensures GetInitials(seq(n, i => ' ')) == ""
  {
    var s := seq(n, i => ' ');
    FirstCharsOfSplit(s);
    BlankHasNoWordStarts(s, true);
  }

  lemma {:induction false} BlankHasNoWordStarts(s: string, afterSpace: bool)
    requires forall i :: 0 <= i < |s| ==> s[i] == ' '
    ensures WordStartsFrom(s, afterSpace) == ""
  {
    if s != [] {
      BlankHasNoWordStarts(s[1..], true);
    }
  }

  /** The badge variants. */
  datatype BadgeVariant = Default | Secondary

  /** `getRoleBadgeVariant(role)` */
  function RoleBadgeVariant(role: string): BadgeVariant {
    if role == Manager then Default else Secondary
  }

  /** What the menu shows for a user. */
  datatype ProfileView = ProfileView(imageSrc: string, alt: string, fallback: string, variant: BadgeVariant, roleLabel: string)

  /** The component: nothing without a user; otherwise the avatar (image or
      initials, `U` without a name) and the role badge, where a missing role
      counts as `TENANT`. */
  function Render(user: Option<SessionUser>): Option<ProfileView> {
    match user
    case None => None
    case Some(u) =>
      Some(ProfileView(
        OrElse(u.image, ""),
        OrElse(u.name, ""),
        if Truthy(u.name) then GetInitials(u.name.value) else "U",
        RoleBadgeVariant(OrElse(u.role, Tenant)),
        if u.role == Some(Manager) then "Manager" else "Tenant"))
  }

  /** Nothing is shown without a user; the fallback is `U` exactly when the
      name is absent or empty (or the initials of a non-empty name); the
      badge is the default variant exactly when the label says `Manager`,
      which is exactly when the role is `MANAGER`. */
  lemma RenderView(user: Option<SessionUser>)
    ensures Render(user).None? <==> user.None?
    ensures user.Some? && !Truthy(user.value.name) ==> Render(user).value.fallback == "U"
    ensures user.Some? && Truthy(user.value.name) ==> Render(user).value.fallback == GetInitials(user.value.name.value)
    ensures user.Some? ==> (Render(user).value.variant == Default <==> Render(user).value.roleLabel == "Manager")
    ensures user.Some? ==> (Render(user).value.roleLabel == "Manager" <==> user.value.role == Some(Manager))
  {
    if user.Some? && user.value.role.Some? && user.value.role.value == "" {
      assert Tenant != Manager by { assert Tenant[0] != Manager[0]; }
    }
  }

  /** The badge is the default variant exactly for the role `MANAGER`. */
  lemma RoleBadgeVariantIff(role: string)
    ensures RoleBadgeVariant(role) == Default <==> role == Manager
  {
  }
}
