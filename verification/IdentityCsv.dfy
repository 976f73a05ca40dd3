/**
 The identity lists a gateway prints into request metadata and a service parses back:
 shop IDs as decimal numbers, scopes as names, both joined with commas.
 */
module IdentityCsv {
  import opened Options
  import opened GoStrings
  import opened Slices

  const MAX_INT64: int := 0x7FFF_FFFF_FFFF_FFFF
  const MAX_UINT64: int := 0xFFFF_FFFF_FFFF_FFFF

  // ---------------------------------------------------------------------- numbers

  function DigitChar(d: nat): char
    requires d < 10
  {
    ('0' as int + d) as char
  }

  predicate IsDigit(c: char) {
    '0' <= c <= '9'
  }

  /** strconv.FormatInt for the numbers the printer keeps. */
  function FormatPositive(n: nat): (s: string)
    requires n > 0
    ensures s != "" && forall i :: 0 <= i < |s| ==> IsDigit(s[i])
  {
    if n < 10 then [DigitChar(n)] else FormatPositive(n / 10) + [DigitChar(n % 10)]
  }

  /** strconv.ParseUint: scans left to right, and stops at the first digit that overflows. */
  function ParseUint(s: string, value: nat): Option<nat> {
    if s == "" then Some(value)
    else if !IsDigit(s[0]) then None
    else
      var next := value * 10 + (s[0] as int - '0' as int);
      if next > MAX_UINT64 then Some(MAX_UINT64) else ParseUint(s[1..], next)
  }

  /** strconv.ParseInt with its error dropped: 0 for bad syntax, the nearest int64 when out of range. */
  function ParseInt(s: string): int {
    var negative := s != "" && s[0] == '-';
    var digits := if s != "" && (s[0] == '-' || s[0] == '+') then s[1..] else s;
    var magnitude := if digits == "" then None else ParseUint(digits, 0);
    if magnitude.None? then 0
    else if negative then (if magnitude.value > MAX_INT64 + 1 then -MAX_INT64 - 1 else -magnitude.value)
    else if magnitude.value > MAX_INT64 then MAX_INT64 else magnitude.value
  }

  /** The number a string of digits stands for, read after `value`, without any bound. */
  function Digits(s: string, value: nat): nat
    requires forall i :: 0 <= i < |s| ==> IsDigit(s[i])
  {
    if s == "" then value
    else
      assert IsDigit(s[0]);
      Digits(s[1..], value * 10 + (s[0] as int - '0' as int))
  }

  lemma {:induction false} DigitsGrow(s: string, value: nat)
    requires forall i :: 0 <= i < |s| ==> IsDigit(s[i])
    ensures Digits(s, value) >= value
  {
    if s != "" {
      DigitsGrow(s[1..], value * 10 + (s[0] as int - '0' as int));
    }
  }

  function Least(a: int, b: int): int {
    if a < b then a else b
  }

  lemma {:induction false} ParseUintClamps(s: string, value: nat)
    requires (forall i :: 0 <= i < |s| ==> IsDigit(s[i])) && value <= MAX_UINT64
    ensures ParseUint(s, value) == Some(Least(Digits(s, value), MAX_UINT64))
  {
    if s != "" {
      var next := value * 10 + (s[0] as int - '0' as int);
      DigitsGrow(s[1..], next);
      if next <= MAX_UINT64 {
        ParseUintClamps(s[1..], next);
      }
    }
  }

  /** A signed string of digits parses to its number, clamped to the int64 range. */
  lemma ParseIntClamps(s: string)
    requires s != "" && forall i :: 0 <= i < |s| ==> IsDigit(s[i])
    ensures ParseInt(s) == ParseInt("+" + s) == Least(Digits(s, 0), MAX_INT64)
    ensures ParseInt("-" + s) == -Least(Digits(s, 0), MAX_INT64 + 1)
  {
    assert ("+" + s)[1..] == s && ("-" + s)[1..] == s;
    ParseUintClamps(s, 0);
  }

  lemma {:induction false} ParseUintRejects(s: string, value: nat, i: nat)
    requires i < |s| && !IsDigit(s[i]) && (forall k :: 0 <= k < i ==> IsDigit(s[k]))
    requires Digits(s[..i], value) <= MAX_UINT64
    ensures ParseUint(s, value) == None
  {
    if i > 0 {
      var next := value * 10 + (s[0] as int - '0' as int);
      assert s[..i][1..] == s[1..][..i - 1];
      DigitsGrow(s[1..][..i - 1], next);
      ParseUintRejects(s[1..], next, i - 1);
    }
  }

  /** Anything but digits, met before the number overflows, makes the whole string 0. */
  lemma ParseIntRejects(s: string, i: nat)
    requires i < |s| && !IsDigit(s[i]) && (forall k :: 0 <= k < i ==> IsDigit(s[k]))
    requires Digits(s[..i], 0) <= MAX_UINT64 && (i == 0 ==> s[0] != '+' && s[0] != '-')
    ensures ParseInt(s) == 0
  {
    ParseUintRejects(s, 0, i);
  }

  lemma {:induction false} ParseUintSnoc(s: string, c: char, value: nat)
    requires (forall i :: 0 <= i < |s| ==> IsDigit(s[i])) && IsDigit(c)
    ensures var head := ParseUint(s, value);
            head.Some? && (head.value * 10 + (c as int - '0' as int) <= MAX_UINT64 ==>
              ParseUint(s + [c], value) == Some(head.value * 10 + (c as int - '0' as int)))
  {
    if s == "" {
      assert s + [c] == [c] && [c][1..] == "";
    } else {
      var next := value * 10 + (s[0] as int - '0' as int);
      assert (s + [c])[1..] == s[1..] + [c];
      if next <= MAX_UINT64 {
        ParseUintSnoc(s[1..], c, next);
      }
    }
  }

  lemma {:induction false} ParseFormatted(n: nat)
    requires 0 < n <= MAX_INT64
    ensures ParseUint(FormatPositive(n), 0) == Some(n)
  {
    if n < 10 {
      assert [DigitChar(n)][1..] == "";
    } else {
      ParseFormatted(n / 10);
      ParseUintSnoc(FormatPositive(n / 10), DigitChar(n % 10), 0);
    }
  }

  /** A printed positive int64 parses back to itself, also after trimming, and holds no comma. */
  lemma FormatRoundTrip(n: int)
    requires 0 < n <= MAX_INT64
    ensures ParseInt(TrimSpace(FormatPositive(n))) == n && ',' !in FormatPositive(n)
  {
    var s := FormatPositive(n);
    TrimSpaceTrims(s);
    assert IsDigit(s[0]) && IsDigit(s[|s| - 1]);
    ParseFormatted(n);
  }

  // ------------------------------------------------------------- printer and parser

  predicate IsInt64(n: int) {
    -MAX_INT64 - 1 <= n <= MAX_INT64
  }

  function Positives(xs: seq<int>): seq<int> {
    if xs == [] then []
    else Positives(xs[..|xs| - 1]) + (if xs[|xs| - 1] > 0 then [xs[|xs| - 1]] else [])
  }

  function Formatted(xs: seq<int>): seq<string> {
    if xs == [] then []
    else Formatted(xs[..|xs| - 1]) + (if xs[|xs| - 1] > 0 then [FormatPositive(xs[|xs| - 1])] else [])
  }

  function PositiveParts(parts: seq<string>): seq<int> {
    if parts == [] then []
    else
      var n := ParseInt(TrimSpace(parts[|parts| - 1]));
      PositiveParts(parts[..|parts| - 1]) + (if n > 0 then [n] else [])
  }

  method JoinInt64(values: seq<int>) returns (s: string)
    ensures s == Join(Formatted(values), ',')
  {
    var parts := [];
    for i := 0 to |values|
      invariant parts == Formatted(values[..i])
    {
      assert values[..i + 1][..i] == values[..i];
      if values[i] > 0 {
        parts := parts + [FormatPositive(values[i])];
      }
    }
    assert values[..|values|] == values;
    s := Join(parts, ',');
  }

  method ParseInt64CSV(s: string) returns (out: seq<int>)
    ensures out == PositiveParts(Split(s, ','))
  {
    var parts := Split(s, ',');
    out := [];
    for i := 0 to |parts|
      invariant out == PositiveParts(parts[..i])
    {
      assert parts[..i + 1][..i] == parts[..i];
      var n := ParseInt(TrimSpace(parts[i]));
      if n > 0 {
        out := out + [n];
      }
    }
    assert parts[..|parts|] == parts;
  }

  lemma {:induction false} PartsOfFormatted(xs: seq<int>)
    requires forall i :: 0 <= i < |xs| ==> IsInt64(xs[i])
    ensures PositiveParts(Formatted(xs)) == Positives(xs)
    ensures forall i :: 0 <= i < |Formatted(xs)| ==> ',' !in Formatted(xs)[i]
  {
    if xs != [] {
      var n := |xs| - 1;
      PartsOfFormatted(xs[..n]);
      if xs[n] > 0 {
        FormatRoundTrip(xs[n]);
        assert Formatted(xs)[..|Formatted(xs)| - 1] == Formatted(xs[..n]);
      } else {
        assert Formatted(xs) == Formatted(xs[..n]);
      }
    }
  }

  /** For every int64 list, parsing what was printed gives its positive elements in order. */
  lemma Int64RoundTrip(xs: seq<int>)
    requires forall i :: 0 <= i < |xs| ==> IsInt64(xs[i])
    ensures PositiveParts(Split(Join(Formatted(xs), ','), ',')) == Positives(xs)
  {
    PartsOfFormatted(xs);
    if Formatted(xs) == [] {
      assert Split("", ',') == [""] && [""][..0] == [];
      assert PositiveParts([""]) == [];
    } else {
      SplitJoin(Formatted(xs), ',');
    }
  }

  // ----------------------------------------------------------------------- scopes

  predicate ScopeKept(scope: string) {
    scope != "" && ByteLen(scope) <= 128 && '\r' !in scope && '\n' !in scope && ',' !in scope
  }

  /** The scopes the printer accepts, trimmed. */
  function Kept(scopes: seq<string>): seq<string> {
    if scopes == [] then []
    else
      var scope := TrimSpace(scopes[|scopes| - 1]);
      Kept(scopes[..|scopes| - 1]) + (if ScopeKept(scope) then [scope] else [])
  }

  function NonBlank(parts: seq<string>): seq<string> {
    if parts == [] then []
    else
      var v := TrimSpace(parts[|parts| - 1]);
      NonBlank(parts[..|parts| - 1]) + (if v != "" then [v] else [])
  }

  method JoinScopes(values: seq<string>) returns (s: string)
    ensures s == Join(Kept(values), ',')
  {
    var parts := [];
    for i := 0 to |values|
      invariant parts == Kept(values[..i])
    {
      assert values[..i + 1][..i] == values[..i];
      var value := TrimSpace(values[i]);
      if value != "" && ByteLen(value) <= 128 && '\r' !in value && '\n' !in value && ',' !in value {
        parts := parts + [value];
      }
    }
    assert values[..|values|] == values;
    s := Join(parts, ',');
  }

  method ParseStringCSV(s: string) returns (out: seq<string>)
    ensures out == NonBlank(Split(s, ','))
  {
    var parts := Split(s, ',');
    out := [];
    for i := 0 to |parts|
      invariant out == NonBlank(parts[..i])
    {
      assert parts[..i + 1][..i] == parts[..i];
      var v := TrimSpace(parts[i]);
      if v != "" {
        out := out + [v];
      }
    }
    assert parts[..|parts|] == parts;
  }

  lemma {:induction false} PartsOfKept(scopes: seq<string>)
    ensures NonBlank(Kept(scopes)) == Kept(scopes)
    ensures forall i :: 0 <= i < |Kept(scopes)| ==> ',' !in Kept(scopes)[i]
  {
    if scopes != [] {
      var n := |scopes| - 1;
      PartsOfKept(scopes[..n]);
      var scope := TrimSpace(scopes[n]);
      TrimSpaceTrims(scopes[n]);
      TrimSpaceTrims(scope);
      if ScopeKept(scope) {
        assert Kept(scopes)[..|Kept(scopes)| - 1] == Kept(scopes[..n]);
      } else {
        assert Kept(scopes) == Kept(scopes[..n]);
      }
    }
  }

  /** For every scope list, parsing what was printed gives the trimmed scopes the printer accepts. */
  lemma ScopesRoundTrip(scopes: seq<string>)
    ensures NonBlank(Split(Join(Kept(scopes), ','), ',')) == Kept(scopes)
  {
    PartsOfKept(scopes);
    if Kept(scopes) == [] {
      assert Split("", ',') == [""] && [""][..0] == [];
      assert NonBlank([""]) == [];
    } else {
      SplitJoin(Kept(scopes), ',');
    }
  }

  // ------------------------------------------------- what the loops keep, part by part

  function IfPositive(n: int): Option<int> {
    if n > 0 then Some(n) else None
  }

  function IfPositiveNumber(text: string): Option<int> {
    IfPositive(ParseInt(text))
  }

  function IfNonBlank(text: string): Option<string> {
    if text != "" then Some(text) else None
  }

  /** The scope the printer makes of a value, if it keeps it. */
  function IfKept(value: string): Option<string> {
    if ScopeKept(TrimSpace(value)) then Some(TrimSpace(value)) else None
  }

  /** The printer keeps exactly the positive numbers. */
  lemma {:induction false} PositivesChosen(xs: seq<int>)
    ensures Positives(xs) == Chosen(xs, IfPositive)
  {
    if xs != [] {
      PositivesChosen(xs[..|xs| - 1]);
    }
  }

  /** The printer keeps exactly the acceptable scopes, trimmed. */
  lemma {:induction false} KeptChosen(scopes: seq<string>)
    ensures Kept(scopes) == Chosen(scopes, IfKept)
  {
    if scopes != [] {
      KeptChosen(scopes[..|scopes| - 1]);
    }
  }

  /** `padded` are the parts `texts` with space around them, and without commas. */
  ghost predicate PaddedParts(padded: seq<string>, texts: seq<string>) {
    |padded| == |texts| && forall i :: 0 <= i < |padded| ==> Pads(padded[i], texts[i]) && ',' !in padded[i]
  }

  lemma {:induction false} NonBlankChosen(padded: seq<string>, texts: seq<string>)
    requires PaddedParts(padded, texts)
    ensures NonBlank(padded) == Chosen(texts, IfNonBlank)
  {
    if padded != [] {
      var n := |padded| - 1;
      NonBlankChosen(padded[..n], texts[..n]);
      TrimSpaceIsCore(padded[n], texts[n]);
    }
  }

  lemma {:induction false} PositivePartsChosen(padded: seq<string>, texts: seq<string>)
    requires PaddedParts(padded, texts)
    ensures PositiveParts(padded) == Chosen(texts, IfPositiveNumber)
  {
    if padded != [] {
      var n := |padded| - 1;
      PositivePartsChosen(padded[..n], texts[..n]);
      TrimSpaceIsCore(padded[n], texts[n]);
    }
  }

  /** Parsing comma-separated parts, each with any space around it, gives the parts that are not blank. */
  lemma ParseStringCSVLaw(padded: seq<string>, texts: seq<string>)
    requires padded != [] && PaddedParts(padded, texts)
    ensures NonBlank(Split(Join(padded, ','), ',')) == Chosen(texts, IfNonBlank)
    ensures (forall i :: 0 <= i < |texts| ==> texts[i] != "") ==> NonBlank(Split(Join(padded, ','), ',')) == texts
  {
    SplitJoin(padded, ',');
    NonBlankChosen(padded, texts);
    if forall i :: 0 <= i < |texts| ==> texts[i] != "" {
      ChosenAll(texts, IfNonBlank);
    }
  }

  /** Parsing comma-separated parts, each with any space around it, gives the positive numbers among them. */
  lemma ParseInt64CSVLaw(padded: seq<string>, texts: seq<string>)
    requires padded != [] && PaddedParts(padded, texts)
    ensures PositiveParts(Split(Join(padded, ','), ',')) == Chosen(texts, IfPositiveNumber)
  {
    SplitJoin(padded, ',');
    PositivePartsChosen(padded, texts);
  }

  /** An ASCII scope without line breaks and commas is kept exactly from one to 128 characters; any longer one never. */
  lemma ScopeLengths(scope: string)
    ensures |scope| > 128 || scope == "" ==> !ScopeKept(scope)
    ensures IsAscii(scope) && '\r' !in scope && '\n' !in scope && ',' !in scope ==> (ScopeKept(scope) <==> 1 <= |scope| <= 128)
    ensures '\r' in scope || '\n' in scope || ',' in scope ==> !ScopeKept(scope)
  {
    ByteLenBounds(scope);
  }
}
