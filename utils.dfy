/** The shared helpers: the display form of an enum name, the label of a
    price bound, the removal of empty query parameters, and the stand-in for
    creating a user record. */
module Utils {
  import opened Wrappers
  import opened JsText

  // ---------------------------------------------------------------------
  // formatEnumString
  // ---------------------------------------------------------------------

  /** `str.replace(/([A-Z])/g, " $1")`: a space before every capital. */
  function SpaceBeforeUpper(s: string): string {
    if s == [] then []
    else (if IsUpperAscii(s[0]) then [' ', s[0]] else [s[0]]) + SpaceBeforeUpper(s[1..])
  }

  /** `formatEnumString(str)`: a space before every capital, then trimmed. */
  function FormatEnumString(s: string): string {
    Trim(SpaceBeforeUpper(s))
  }

  /** The text with every white-space character dropped. */
  function NonSpace(s: string): string {
    if s == [] then []
    else (if IsJsSpace(s[0]) then [] else [s[0]]) + NonSpace(s[1..])
  }

  lemma {:induction false} NonSpaceAppend(a: string, b: string)
    ensures NonSpace(a + b) == NonSpace(a) + NonSpace(b)
  {
    if a == [] {
      assert a + b == b;
    } else {
      var h := if IsJsSpace(a[0]) then [] else [a[0]];
      assert (a + b)[0] == a[0];
      assert (a + b)[1..] == a[1..] + b;
      NonSpaceAppend(a[1..], b);
      assert h + (NonSpace(a[1..]) + NonSpace(b)) == (h + NonSpace(a[1..])) + NonSpace(b);
    }
  }

  lemma {:induction false} NonSpaceOfSpaces(s: string)
    requires forall i :: 0 <= i < |s| ==> IsJsSpace(s[i])
    ensures NonSpace(s) == []
  {
    if s != [] {
      NonSpaceOfSpaces(s[1..]);
    }
  }

  /** Inserting the spaces adds nothing but white space. */
  lemma {:induction false} SpaceBeforeUpperKeepsText(s: string)
    ensures NonSpace(SpaceBeforeUpper(s)) == NonSpace(s)
  {
    if s != [] {
      SpaceBeforeUpperKeepsText(s[1..]);
      var head := if IsUpperAscii(s[0]) then [' ', s[0]] else [s[0]];
      NonSpaceAppend(head, SpaceBeforeUpper(s[1..]));
      if IsUpperAscii(s[0]) {
        assert head[1..] == [s[0]];
      }
    }
  }

  /** Every capital of the spaced text has a space right before it. */
  lemma {:induction false} SpaceBeforeUpperPrecedes(s: string)
    ensures forall i :: 0 <= i < |SpaceBeforeUpper(s)| && IsUpperAscii(SpaceBeforeUpper(s)[i])
              ==> i > 0 && SpaceBeforeUpper(s)[i - 1] == ' '
  {
    if s != [] {
      SpaceBeforeUpperPrecedes(s[1..]);
      var head := if IsUpperAscii(s[0]) then [' ', s[0]] else [s[0]];
      var r := SpaceBeforeUpper(s);
      var rest := SpaceBeforeUpper(s[1..]);
      assert r == head + rest;
      forall i | 0 <= i < |r| && IsUpperAscii(r[i])
        ensures i > 0 && r[i - 1] == ' '
      {
        if i >= |head| {
          assert r[i] == rest[i - |head|];
          if i - |head| > 0 {
            assert r[i - 1] == rest[i - |head| - 1];
          }
        }
      }
    }
  }

  /** A text without capitals is left as it is by the spacing step. */
  lemma {:induction false} SpaceBeforeUpperNoCapitals(s: string)
    requires forall i :: 0 <= i < |s| ==> !IsUpperAscii(s[i])
    ensures SpaceBeforeUpper(s) == s
  {
    if s != [] {
      SpaceBeforeUpperNoCapitals(s[1..]);
    }
  }

  /** Trimming drops nothing but white space. */
  lemma TrimKeepsText(s: string)
    ensures NonSpace(Trim(s)) == NonSpace(s)
  {
    var a, b := TrimLo(s), TrimHi(s);
    var r := Trim(s);
    assert r == s[a..b];
    assert s == s[..a] + r + s[b..];
    NonSpaceAppend(s[..a] + r, s[b..]);
    NonSpaceAppend(s[..a], r);
    NonSpaceOfSpaces(s[..a]);
    NonSpaceOfSpaces(s[b..]);
  }

  /** Every capital that is not the first character has a space before it. */
  predicate CapitalsSpaced(x: string) {
    forall j :: 0 < j < |x| && IsUpperAscii(x[j]) ==> x[j - 1] == ' '
  }

  /** Cutting both ends off a text keeps its capitals spaced. */
  lemma InfixKeepsCapitalsSpaced(x: string, a: nat, b: nat)
    requires a <= b <= |x|
    requires CapitalsSpaced(x)
    ensures CapitalsSpaced(x[a..b])
  {
    var r := x[a..b];
    forall j | 0 < j < |r| && IsUpperAscii(r[j])
      ensures r[j - 1] == ' '
    {
      assert r[j] == x[a + j] && r[j - 1] == x[a + j - 1];
    }
  }

  /** The formatted name differs from the input only in white space, has no
      white space at either end, and has a space before every capital that
      is not its first character. */
  lemma FormatEnumStringShape(s: string)
    ensures NonSpace(FormatEnumString(s)) == NonSpace(s)
    ensures var r := FormatEnumString(s);
      r != [] ==> !IsJsSpace(r[0]) && !IsJsSpace(r[|r| - 1])
    ensures CapitalsSpaced(FormatEnumString(s))
  {
    var x := SpaceBeforeUpper(s);
    SpaceBeforeUpperKeepsText(s);
    TrimKeepsText(x);
    SpaceBeforeUpperPrecedes(s);
    assert CapitalsSpaced(x);
    InfixKeepsCapitalsSpaced(x, TrimLo(x), TrimHi(x));
  }

  /** A name with no capitals and no white space at its ends is unchanged. */
  lemma FormatEnumStringNoCapitals(s: string)
    requires forall i :: 0 <= i < |s| ==> !IsUpperAscii(s[i])
    requires s != [] ==> !IsJsSpace(s[0]) && !IsJsSpace(s[|s| - 1])
    ensures FormatEnumString(s) == s
  {
    SpaceBeforeUpperNoCapitals(s);
  }

  // ---------------------------------------------------------------------
  // formatPriceValue
  // ---------------------------------------------------------------------

  /** `formatPriceValue(value, isMin)` for integer values; a value of 1000 or
      more must be a whole number of thousands (otherwise the quotient is a
      fraction). */
  function FormatPriceValue(value: Option<int>, isMin: bool): string
    requires value.None? || value.value < 1000 || value.value % 1000 == 0
  {
    if value.None? || value.value == 0 then
      if isMin then "Any Min Price" else "Any Max Price"
    else if value.value >= 1000 then
      var k := IntToDecimal(value.value / 1000);
      if isMin then "$" + k + "k+" else "<$" + k + "k"
    else
      var v := IntToDecimal(value.value);
      if isMin then "$" + v + "+" else "<$" + v
  }

  /** The amount in a label: a decimal, or a decimal of thousands
      followed by `k`. */
  function AmountValue(body: string): Option<int> {
    if |body| >= 1 && body[|body| - 1] == 'k' then
      match ParseInt(body[..|body| - 1])
      case Some(n) => Some(n * 1000)
      case None => None
    else ParseInt(body)
  }

  /** Reads a price bound back from its label; the "Any" labels give `None`. */
  function PriceFromLabel(text: string, isMin: bool): Option<int> {
    if isMin then
      if |text| >= 2 && text[0] == '$' && text[|text| - 1] == '+' then AmountValue(text[1..|text| - 1])
      else None
    else if StartsWith(text, "<$") then AmountValue(text[2..])
    else None
  }

  lemma NoLetterK(n: int)
    ensures 'k' !in IntToDecimal(n)
  {
    var s := IntToDecimal(n);
    forall i | 0 <= i < |s|
      ensures s[i] != 'k'
    {
      assert IsDigit(s[i]) || s[i] == '-';
    }
  }

  /** A minimum label is read from between its `$` and `+`. */
  lemma MinLabelBody(body: string)
    ensures PriceFromLabel("$" + body + "+", true) == AmountValue(body)
  {
    var text := "$" + body + "+";
    assert text[1..|text| - 1] == body;
  }

  /** A maximum label is read from after its `<$`. */
  lemma MaxLabelBody(body: string)
    ensures PriceFromLabel("<$" + body, false) == AmountValue(body)
  {
    var text := "<$" + body;
    assert text[..2] == "<$" && text[2..] == body;
  }

  /** A plain amount reads back as its integer. */
  lemma PlainAmount(v: int)
    ensures AmountValue(IntToDecimal(v)) == Some(v)
  {
    IntDecimalRoundTrip(v);
  }

  /** An amount in thousands reads back as the number it stands for. */
  lemma ThousandsAmount(n: int)
    ensures AmountValue(IntToDecimal(n) + "k") == Some(n * 1000)
  {
    var body := IntToDecimal(n) + "k";
    assert body[..|body| - 1] == IntToDecimal(n);
    IntDecimalRoundTrip(n);
  }

  /** A label of a whole number of thousands reads back as its value. */
  lemma ThousandsLabelDecodes(v: int, isMin: bool)
    requires v >= 1000 && v % 1000 == 0
    ensures PriceFromLabel(FormatPriceValue(Some(v), isMin), isMin) == Some(v)
  {
    var body := IntToDecimal(v / 1000) + "k";
    ThousandsAmount(v / 1000);
    assert v == (v / 1000) * 1000;
    if isMin {
      assert FormatPriceValue(Some(v), isMin) == "$" + body + "+";
      MinLabelBody(body);
    } else {
      assert FormatPriceValue(Some(v), isMin) == "<$" + body;
      MaxLabelBody(body);
    }
  }

  /** A label of a non-zero value below 1000 reads back as its value. */
  lemma SmallLabelDecodes(v: int, isMin: bool)
    requires v < 1000 && v != 0
    ensures PriceFromLabel(FormatPriceValue(Some(v), isMin), isMin) == Some(v)
  {
    var body := IntToDecimal(v);
    PlainAmount(v);
    if isMin {
      MinLabelBody(body);
    } else {
      MaxLabelBody(body);
    }
  }

  /** A price label names its bound: reading it back gives the value, and
      the "Any" labels (no value, or zero) read back as no bound. */
  lemma PriceLabelDecodes(value: Option<int>, isMin: bool)
    requires value.None? || value.value < 1000 || value.value % 1000 == 0
    ensures PriceFromLabel(FormatPriceValue(value, isMin), isMin)
         == (if value.None? || value.value == 0 then None else value)
  {
    if value.Some? && value.value >= 1000 {
      ThousandsLabelDecodes(value.value, isMin);
    } else if value.Some? && value.value != 0 {
      SmallLabelDecodes(value.value, isMin);
    } else {
      assert FormatPriceValue(value, isMin)[0] == 'A';
    }
  }

  /** A label uses the thousands form exactly when the value is 1000 or more. */
  lemma PriceLabelThousands(value: int, isMin: bool)
    requires value != 0 && (value < 1000 || value % 1000 == 0)
    ensures 'k' in FormatPriceValue(Some(value), isMin) <==> value >= 1000
  {
    var text := FormatPriceValue(Some(value), isMin);
    if value >= 1000 {
      var k := IntToDecimal(value / 1000);
      assert text[|text| - (if isMin then 2 else 1)] == 'k';
    } else {
      var d := IntToDecimal(value);
      NoLetterK(value);
      if isMin {
        assert text == "$" + d + "+";
      } else {
        assert text == "<$" + d;
      }
    }
  }

  // ---------------------------------------------------------------------
  // cleanParams
  // ---------------------------------------------------------------------

  /** The values a query-parameter record can hold. */
  datatype ParamValue =
    | Undefined
    | Null
    | NaN
    | Num(n: real)
    | Str(s: string)
    | Bool(b: bool)
    | Arr(items: seq<ParamValue>)

  /** The filter's test: not undefined, NaN, `"any"` or `""`, and for an
      array some element that is not null, otherwise not null. */
  predicate Kept(v: ParamValue) {
    v != Undefined && v != NaN && v != Str("any") && v != Str("")
    && (if v.Arr? then exists i :: 0 <= i < |v.items| && v.items[i] != Null else v != Null)
  }

  /** `cleanParams`: the record's entries, in order, with the dropped ones
      removed. */
  function CleanParams(entries: seq<(string, ParamValue)>): seq<(string, ParamValue)> {
    if entries == [] then []
    else (if Kept(entries[0].1) then [entries[0]] else []) + CleanParams(entries[1..])
  }

  /** An entry survives exactly when it was there and its value passes. */
  lemma {:induction false} CleanParamsMembers(entries: seq<(string, ParamValue)>, e: (string, ParamValue))
    ensures e in CleanParams(entries) <==> e in entries && Kept(e.1)
  {
    if entries != [] {
      CleanParamsMembers(entries[1..], e);
      assert entries == [entries[0]] + entries[1..];
    }
  }

  /** Cleaning works entry by entry, so it keeps the order of the entries. */
  lemma {:induction false} CleanParamsAppend(a: seq<(string, ParamValue)>, b: seq<(string, ParamValue)>)
    ensures CleanParams(a + b) == CleanParams(a) + CleanParams(b)
  {
    if a == [] {
      assert a + b == b;
    } else {
      var h := if Kept(a[0].1) then [a[0]] else [];
      assert (a + b)[0] == a[0];
      assert (a + b)[1..] == a[1..] + b;
      assert CleanParams(a + b) == h + CleanParams(a[1..] + b);
      CleanParamsAppend(a[1..], b);
      assert h + (CleanParams(a[1..]) + CleanParams(b)) == (h + CleanParams(a[1..])) + CleanParams(b);
    }
  }

  /** A record whose values all pass is left as it is. */
  lemma {:induction false} CleanParamsKeepsClean(entries: seq<(string, ParamValue)>)
    requires forall i :: 0 <= i < |entries| ==> Kept(entries[i].1)
    ensures CleanParams(entries) == entries
  {
    if entries != [] {
      CleanParamsKeepsClean(entries[1..]);
    }
  }

  /** Cleaning twice is cleaning once. */
  lemma CleanParamsIdempotent(entries: seq<(string, ParamValue)>)
    ensures CleanParams(CleanParams(entries)) == CleanParams(entries)
  {
    var c := CleanParams(entries);
    forall i | 0 <= i < |c|
      ensures Kept(c[i].1)
    {
      CleanParamsMembers(entries, c[i]);
    }
    CleanParamsKeepsClean(c);
  }

  // ---------------------------------------------------------------------
  // createNewUserInDatabase
  // ---------------------------------------------------------------------

  /** The parts of the untyped user object that are read. */
  datatype Attributes = Attributes(email: Option<string>)
  datatype LooseUser = LooseUser(userId: Option<string>, username: Option<string>, attributes: Option<Attributes>)

  /** The record the stand-in returns as `data`. */
  datatype NewUser = NewUser(id: Option<string>, name: Option<string>, email: string, phoneNumber: string)

  /** `createNewUserInDatabase(user, ...)`: the token, role and fetch
      arguments are not used, so they are not parameters here. */
  function CreateNewUserInDatabase(user: LooseUser): NewUser {
    var email := if user.attributes.Some? then user.attributes.value.email else None;
    NewUser(user.userId, user.username, OrElse(email, ""), "")
  }

  /** The new record copies id and name, has an empty phone number, and
      takes the attribute email when it is non-empty and "" otherwise. */
  lemma CreateNewUserFields(user: LooseUser)
    ensures CreateNewUserInDatabase(user).id == user.userId
    ensures CreateNewUserInDatabase(user).name == user.username
    ensures CreateNewUserInDatabase(user).phoneNumber == ""
    ensures user.attributes.None? || user.attributes.value.email.None? ==> CreateNewUserInDatabase(user).email == ""
    ensures user.attributes.Some? && user.attributes.value.email.Some?
            ==> CreateNewUserInDatabase(user).email == user.attributes.value.email.value
  {
  }
}
