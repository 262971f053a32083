/** Shared value types and ASCII string helpers used by every module of the model.
    Strings are sequences of chars; the source's Unicode-aware case mapping and
    whitespace tests are modelled on their ASCII subset. */
module Common {

  /** An unsigned byte, as `u8` in the source. */
  type byte = b: int | 0 <= b < 256

  datatype Option<+T> = None | Some(value: T) {
    function GetOr(default: T): T {
      match this
      case Some(v) => v
      case None => default
    }
  }

  /** The index of the first `Some` at or after `from`, or `|xs|` when there is none. */
  function FirstSomeFrom<T>(xs: seq<Option<T>>, from: nat): (i: nat)
    requires from <= |xs|
    ensures from <= i <= |xs|
    ensures forall j :: from <= j < i ==> xs[j].None?
    ensures i < |xs| ==> xs[i].Some?
    decreases |xs| - from
  {
    if from == |xs| || xs[from].Some? then from else FirstSomeFrom(xs, from + 1)
  }

  datatype Result<+T, +E> = Ok(value: T) | Err(error: E)

  const U16_MAX: nat := 65535
  const U32_MAX: nat := 4294967295
  const U64_MAX: nat := 18446744073709551615

  // ---------------------------------------------------------------------
  // Characters

  predicate IsDigit(c: char) { '0' <= c <= '9' }
  predicate IsUpper(c: char) { 'A' <= c <= 'Z' }
  predicate IsLowerAlpha(c: char) { 'a' <= c <= 'z' }
  predicate IsAlpha(c: char) { IsUpper(c) || IsLowerAlpha(c) }
  predicate IsAlnum(c: char) { IsAlpha(c) || IsDigit(c) }
  /** `char::is_whitespace` restricted to ASCII. */
  predicate IsSpace(c: char) { c == ' ' || c == '\t' || c == '\n' || c == '\r' || c == '\U{B}' || c == '\U{C}' }

  function Lower(c: char): (r: char)
    ensures !IsUpper(r)
    ensures IsUpper(c) || r == c
  {
    if IsUpper(c) then (c as int + 32) as char else c
  }

  function Upper(c: char): (r: char)
    ensures !IsLowerAlpha(r)
  {
    if IsLowerAlpha(c) then (c as int - 32) as char else c
  }

  function DigitValue(c: char): nat
    requires IsDigit(c)
  {
    c as int - '0' as int
  }

  // ---------------------------------------------------------------------
  // Whole strings

  function ToLower(s: string): (r: string)
    ensures |r| == |s|
    ensures forall i :: 0 <= i < |s| ==> r[i] == Lower(s[i])
  {
    if s == [] then [] else [Lower(s[0])] + ToLower(s[1..])
  }

  /** Lower-casing twice is lower-casing once. */
  lemma {:induction false} ToLowerIdempotent(s: string)
    ensures ToLower(ToLower(s)) == ToLower(s)
  {
    var l := ToLower(s);
    assert forall i :: 0 <= i < |l| ==> Lower(l[i]) == l[i];
  }

  function ToUpper(s: string): (r: string)
    ensures |r| == |s|
    ensures forall i :: 0 <= i < |s| ==> r[i] == Upper(s[i])
  {
    if s == [] then [] else [Upper(s[0])] + ToUpper(s[1..])
  }

  /** Text without upper-case letters is its own lower-case form. */
  lemma LowercaseUnchanged(s: string)
    requires forall i :: 0 <= i < |s| ==> !IsUpper(s[i])
    ensures ToLower(s) == s
  {
  }

  /** The lower-case form, character by character. */
  lemma LowerIs(s: string, t: string)
    requires |s| == |t| && forall i :: 0 <= i < |s| ==> Lower(s[i]) == t[i]
    ensures ToLower(s) == t
  {
  }

  predicate AllDigits(s: string) { forall i :: 0 <= i < |s| ==> IsDigit(s[i]) }

  /** The length of the run of ASCII digits that starts `s`. */
  function DigitRun(s: string): (n: nat)
    ensures n <= |s| && AllDigits(s[..n]) && (n == |s| || !IsDigit(s[n]))
  {
    if s == [] || !IsDigit(s[0]) then 0 else 1 + DigitRun(s[1..])
  }

  /** A digit run followed by a non-digit is exactly that run. */
  lemma {:induction false} DigitRunOf(digits: string, tail: string)
    requires AllDigits(digits) && tail != [] && !IsDigit(tail[0])
    ensures DigitRun(digits + tail) == |digits|
  {
    if digits != [] {
      assert (digits + tail)[1..] == digits[1..] + tail;
      DigitRunOf(digits[1..], tail);
    }
  }

  /** The bullet marker as the source spells it: the UTF-8 bytes of U+2022
      read as Windows-1252, three characters. */
  const MISDECODED_BULLET: string := "\U{E2}\U{20AC}\U{A2}"

  predicate StartsWith(s: string, p: string) { |p| <= |s| && s[..|p|] == p }
  predicate EndsWith(s: string, p: string) { |p| <= |s| && s[|s| - |p|..] == p }

  /** A string starts with what is put in front of it and ends with what is appended. */
  lemma AppendAffixes(a: string, b: string)
    ensures StartsWith(a + b, a) && EndsWith(a + b, b)
  {
    assert (a + b)[..|a|] == a;
    assert (a + b)[|a|..] == b;
  }

  /** `str::trim_start_matches(p)`: drop every leading copy of `p`. */
  function TrimStartMatches(s: string, p: string): (r: string)
    requires p != []
    ensures |r| <= |s| && r == s[|s| - |r|..]
    ensures !StartsWith(r, p)
  {
    if StartsWith(s, p) then TrimStartMatches(s[|p|..], p) else s
  }

  /** `sub` occurs in `s` at position `i`. */
  predicate OccursAt(s: string, sub: string, i: int) { 0 <= i && i + |sub| <= |s| && s[i..i + |sub|] == sub }

  predicate Contains(s: string, sub: string) { exists i :: 0 <= i <= |s| - |sub| && OccursAt(s, sub, i) }

  /** The first position at which `sub` occurs in `s`, searching from `from`. */
  function IndexOfFrom(s: string, sub: string, from: nat): (r: Option<nat>)
    decreases |s| - from
    ensures r.Some? ==> from <= r.value && OccursAt(s, sub, r.value)
    ensures r.Some? ==> forall j :: from <= j < r.value ==> !OccursAt(s, sub, j)
    ensures r.None? ==> forall j :: from <= j ==> !OccursAt(s, sub, j)
  {
    if from + |sub| > |s| then None
    else if s[from..from + |sub|] == sub then Some(from)
    else IndexOfFrom(s, sub, from + 1)
  }

  function IndexOf(s: string, sub: string): Option<nat> { IndexOfFrom(s, sub, 0) }

  lemma IndexOfContains(s: string, sub: string)
    ensures IndexOf(s, sub).Some? <==> Contains(s, sub)
  {
    if IndexOf(s, sub).Some? {
      assert OccursAt(s, sub, IndexOf(s, sub).value);
    }
  }

  /** A string lacking one of the characters of `sub` cannot contain it. */
  lemma MissingCharNotContains(s: string, sub: string, k: nat)
    requires k < |sub| && sub[k] !in s
    ensures !Contains(s, sub)
  {
    forall i | 0 <= i <= |s| - |sub|
      ensures !OccursAt(s, sub, i)
    {
      assert s[i..i + |sub|][k] == s[i + k];
    }
  }

  /** A string contains itself. */
  lemma ContainsSelf(s: string)
    ensures Contains(s, s)
  {
    assert OccursAt(s, s, 0);
  }

  /** The first position of character `c` in `s`. */
  function FindChar(s: string, c: char): (r: Option<nat>)
    ensures r.Some? ==> r.value < |s| && s[r.value] == c && forall j :: 0 <= j < r.value ==> s[j] != c
    ensures r.None? <==> c !in s
  {
    if s == [] then None
    else if s[0] == c then Some(0)
    else match FindChar(s[1..], c)
      case None => None
      case Some(k) => Some(k + 1)
  }

  /** The first `c` of `a + [c] + b` is the one after `a` when `a` has none. */
  lemma FindCharAfter(a: string, c: char, b: string)
    requires c !in a
    ensures FindChar(a + [c] + b, c) == Some(|a|)
  {
    var s := a + [c] + b;
    assert s[|a|] == c;
    assert forall j :: 0 <= j < |a| ==> s[j] == a[j];
  }

  /** The last position of character `c` in `s`. */
  function RFindChar(s: string, c: char): (r: Option<nat>)
    ensures r.Some? ==> r.value < |s| && s[r.value] == c && forall j :: r.value < j < |s| ==> s[j] != c
    ensures r.None? <==> c !in s
  {
    if s == [] then None
    else if s[|s| - 1] == c then Some(|s| - 1)
    else RFindChar(s[..|s| - 1], c)
  }

  function TrimStart(s: string): (r: string)
    ensures |r| <= |s|
    ensures r == [] || !IsSpace(r[0])
  {
    if s != [] && IsSpace(s[0]) then TrimStart(s[1..]) else s
  }

  function TrimEnd(s: string): (r: string)
    ensures |r| <= |s|
    ensures r == [] || !IsSpace(r[|r| - 1])
  {
    if s != [] && IsSpace(s[|s| - 1]) then TrimEnd(s[..|s| - 1]) else s
  }

  function Trim(s: string): (r: string)
    ensures |r| <= |s|
    ensures r == [] || (!IsSpace(r[0]) && !IsSpace(r[|r| - 1]))
  {
    TrimEndIsPrefix(TrimStart(s));
    TrimEnd(TrimStart(s))
  }

  predicate IsBlank(s: string) { Trim(s) == [] }

  lemma {:induction false} TrimStartEmpty(s: string)
    ensures TrimStart(s) == [] <==> forall i :: 0 <= i < |s| ==> IsSpace(s[i])
  {
    if s != [] && IsSpace(s[0]) {
      TrimStartEmpty(s[1..]);
      assert forall i :: 1 <= i < |s| ==> s[i] == s[1..][i - 1];
    }
  }

  lemma {:induction false} TrimEndEmpty(s: string)
    ensures TrimEnd(s) == [] <==> forall i :: 0 <= i < |s| ==> IsSpace(s[i])
  {
    if s != [] && IsSpace(s[|s| - 1]) {
      TrimEndEmpty(s[..|s| - 1]);
    }
  }

  /** A string is blank exactly when all its characters are whitespace. */
  lemma BlankIffAllSpace(s: string)
    ensures IsBlank(s) <==> forall i :: 0 <= i < |s| ==> IsSpace(s[i])
  {
    var t := TrimStart(s);
    TrimStartEmpty(s);
    TrimEndEmpty(t);
    TrimStartIsSuffix(s);
    if t != [] {
      assert !IsSpace(t[0]);
    }
    if forall i :: 0 <= i < |s| ==> IsSpace(s[i]) {
      assert t == [];
    }
  }

  /** Text that neither starts nor ends with whitespace is already trimmed. */
  lemma TrimmedEnds(s: string)
    requires s == [] || (!IsSpace(s[0]) && !IsSpace(s[|s| - 1]))
    ensures Trim(s) == s
  {
    assert TrimStart(s) == s;
    assert TrimEnd(s) == s;
  }

  /** Trimming a trimmed string changes nothing. */
  lemma TrimIdempotent(s: string)
    ensures Trim(Trim(s)) == Trim(s)
  {
    var t := Trim(s);
    assert TrimStart(t) == t;
    assert TrimEnd(t) == t;
  }

  /** Trimming the start keeps a suffix. */
  lemma {:induction false} TrimStartIsSuffix(s: string)
    ensures TrimStart(s) == s[|s| - |TrimStart(s)|..]
  {
    if s != [] && IsSpace(s[0]) {
      TrimStartIsSuffix(s[1..]);
    }
  }

  /** Trimming the end keeps a prefix. */
  lemma {:induction false} TrimEndIsPrefix(s: string)
    ensures TrimEnd(s) == s[..|TrimEnd(s)|]
  {
    if s != [] && IsSpace(s[|s| - 1]) {
      var t := s[..|s| - 1];
      TrimEndIsPrefix(t);
      assert t[..|TrimEnd(t)|] == s[..|TrimEnd(t)|];
    }
  }

  /** `str::strip_prefix`. */
  function StripPrefix(s: string, p: string): (r: Option<string>)
    ensures r.Some? <==> StartsWith(s, p)
    ensures r.Some? ==> s == p + r.value
  {
    if StartsWith(s, p) then Some(s[|p|..]) else None
  }

  /** `trim_end_matches(c)` on a single character: every trailing `c` removed. */
  function TrimEndChar(s: string, c: char): (r: string)
    ensures |r| <= |s| && r == s[..|r|]
    ensures r == [] || r[|r| - 1] != c
    ensures forall i :: |r| <= i < |s| ==> s[i] == c
    ensures s != [] && s[|s| - 1] != c ==> r == s
  {
    if s != [] && s[|s| - 1] == c then TrimEndChar(s[..|s| - 1], c) else s
  }

  /** `str::strip_suffix`. */
  function StripSuffix(s: string, p: string): (r: Option<string>)
    ensures r.Some? <==> EndsWith(s, p)
    ensures r.Some? ==> s == r.value + p
  {
    if EndsWith(s, p) then Some(s[..|s| - |p|]) else None
  }

  // ---------------------------------------------------------------------
  // Splitting and joining

  /** `str::split(sep)` on a single character: always at least one piece. */
  function Split(s: string, sep: char): (r: seq<string>)
    ensures |r| >= 1
    ensures forall k :: 0 <= k < |r| ==> sep !in r[k]
  {
    match FindChar(s, sep)
    case None => [s]
    case Some(i) => [s[..i]] + Split(s[i + 1..], sep)
  }

  /** `str::splitn(n, sep)`: at most `n` pieces, the last one keeping any further separators. */
  function SplitN(s: string, sep: char, n: nat): (r: seq<string>)
    requires n >= 1
    ensures 1 <= |r| <= n
    ensures forall k :: 0 <= k < |r| - 1 ==> sep !in r[k]
    ensures |r| < n ==> sep !in r[|r| - 1]
  {
    if n == 1 then [s]
    else match FindChar(s, sep)
      case None => [s]
      case Some(i) => [s[..i]] + SplitN(s[i + 1..], sep, n - 1)
  }

  /** Splitting a string that starts with a separator-free field and a separator. */
  lemma SplitNCons(a: string, sep: char, b: string, n: nat)
    requires n >= 2 && sep !in a
    ensures SplitN(a + [sep] + b, sep, n) == [a] + SplitN(b, sep, n - 1)
  {
    var s := a + [sep] + b;
    assert s[|a|] == sep;
    var k := FindChar(s, sep);
    assert k.Some?;
    assert s[..|a|] == a && s[|a| + 1..] == b;
  }

  /** Splitting a string that starts with a separator-free field and a separator. */
  lemma SplitCons(a: string, sep: char, b: string)
    requires sep !in a
    ensures Split(a + [sep] + b, sep) == [a] + Split(b, sep)
  {
    var s := a + [sep] + b;
    assert s[|a|] == sep;
    assert FindChar(s, sep).Some?;
    assert s[..|a|] == a && s[|a| + 1..] == b;
  }

  /** Splitting keeps a separator-free tail as the last piece. */
  lemma {:induction false} SplitLast(a: string, sep: char, b: string)
    requires sep !in b
    ensures var r := Split(a + [sep] + b, sep); r[|r| - 1] == b
    decreases |a|
  {
    var s := a + [sep] + b;
    assert s[|a|] == sep;
    var i := FindChar(s, sep).value;
    assert i <= |a|;
    var rest := s[i + 1..];
    var tail := Split(rest, sep);
    var r := Split(s, sep);
    assert r == [s[..i]] + tail;
    assert r[|r| - 1] == tail[|tail| - 1];
    if i == |a| {
      assert rest == b;
      assert FindChar(b, sep).None?;
      assert tail == [b];
    } else {
      var a' := a[i + 1..];
      assert |rest| == |a' + [sep] + b|;
      forall k | 0 <= k < |rest| ensures rest[k] == (a' + [sep] + b)[k] {
        if k < |a'| { assert rest[k] == a[i + 1 + k]; }
      }
      assert rest == a' + [sep] + b;
      SplitLast(a', sep, b);
    }
  }

  /** A string without whitespace is its own trimmed form and its only word. */
  lemma NoSpaceTrimWords(s: string)
    requires NoSpace(s)
    ensures Trim(s) == s
    ensures s != [] ==> Words(s) == [s]
  {
    assert TrimStart(s) == s;
    if s != [] {
      assert !IsSpace(s[|s| - 1]);
      WordPrefixNoSpace(s);
      assert s[|s|..] == [];
    }
  }

  lemma {:induction false} WordPrefixNoSpace(s: string)
    requires NoSpace(s)
    ensures WordPrefix(s) == s
  {
    if s != [] {
      WordPrefixNoSpace(s[1..]);
    }
  }

  /** Fields joined by a one-character separator. */
  function JoinChar(fields: seq<string>, sep: char): string
    requires |fields| >= 1
  {
    if |fields| == 1 then fields[0] else fields[0] + [sep] + JoinChar(fields[1..], sep)
  }

  /** Splitting joined fields into as many pieces gives the fields back, when
      only the last field may contain the separator. */
  lemma {:induction false} SplitNJoinChar(fields: seq<string>, sep: char)
    requires |fields| >= 1
    requires forall k :: 0 <= k < |fields| - 1 ==> sep !in fields[k]
    ensures SplitN(JoinChar(fields, sep), sep, |fields|) == fields
  {
    if |fields| > 1 {
      var tail := fields[1..];
      NoSepInTail(fields, sep);
      SplitNJoinChar(tail, sep);
      SplitNCons(fields[0], sep, JoinChar(tail, sep), |fields|);
      assert fields == [fields[0]] + tail;
    }
  }

  lemma NoSepInTail(fields: seq<string>, sep: char)
    requires |fields| > 1
    requires forall k :: 0 <= k < |fields| - 1 ==> sep !in fields[k]
    ensures forall k :: 0 <= k < |fields[1..]| - 1 ==> sep !in fields[1..][k]
  {
    forall k | 0 <= k < |fields[1..]| - 1 ensures sep !in fields[1..][k] {
      assert fields[1..][k] == fields[k + 1];
    }
  }

  function Join(parts: seq<string>, sep: string): string
  {
    if parts == [] then []
    else if |parts| == 1 then parts[0]
    else parts[0] + sep + Join(parts[1..], sep)
  }

  /** `str::split_whitespace`: maximal runs of non-space characters. */
  function Words(s: string): seq<string>
  {
    if s == [] then []
    else if IsSpace(s[0]) then Words(s[1..])
    else
      var w := WordPrefix(s);
      [w] + Words(s[|w|..])
  }

  predicate NoSpace(s: string) { forall j :: 0 <= j < |s| ==> !IsSpace(s[j]) }

  /** The longest prefix of `s` without whitespace. */
  function WordPrefix(s: string): (r: string)
    ensures |r| <= |s| && r == s[..|r|]
    ensures NoSpace(r)
    ensures |r| == |s| || IsSpace(s[|r|])
    ensures s != [] && !IsSpace(s[0]) ==> r != []
  {
    if s == [] || IsSpace(s[0]) then [] else [s[0]] + WordPrefix(s[1..])
  }

  /** `str::lines`: split at '\n' and drop one '\r' before each '\n'; the
      final line needs no '\n' and keeps a lone trailing '\r', and there is
      no final empty line. */
  function Lines(s: string): (r: seq<string>)
    ensures forall k :: 0 <= k < |r| ==> '\n' !in r[k]
    ensures s == [] ==> r == []
  {
    var pieces := Split(s, '\n');
    var last := pieces[|pieces| - 1];
    var ended := pieces[..|pieces| - 1];
    seq(|ended|, k requires 0 <= k < |ended| => DropCr(ended[k])) + (if last == [] then [] else [last])
  }

  /** A '\r' goes only together with the '\n' after it: a final line keeps
      its lone '\r', a CRLF ending is dropped whole. */
  lemma LinesCarriageReturn()
    ensures Lines("a\r") == ["a\r"]
    ensures Lines("a\r\n") == ["a"]
    ensures Lines("a\r\nb\r") == ["a", "b\r"]
  {
    assert FindChar("a\r", '\n') == None;
    assert FindChar("", '\n') == None;
    assert FindChar("b\r", '\n') == None;
    assert FindChar("a\r\n", '\n') == Some(2);
    assert FindChar("a\r\nb\r", '\n') == Some(2);
    assert "a\r\n"[..2] == "a\r" && "a\r\n"[3..] == "";
    assert "a\r\nb\r"[..2] == "a\r" && "a\r\nb\r"[3..] == "b\r";
    assert Split("a\r\n", '\n') == ["a\r", ""];
    assert Split("a\r\nb\r", '\n') == ["a\r", "b\r"];
    assert DropCr("a\r") == "a";
  }

  function DropCr(s: string): string
  {
    if s != [] && s[|s| - 1] == '\r' then s[..|s| - 1] else s
  }

  // ---------------------------------------------------------------------
  // Numbers

  /** Value of a non-empty run of decimal digits. */
  function DigitsValue(s: string): nat
    requires AllDigits(s)
  {
    if s == [] then 0 else DigitsValue(s[..|s| - 1]) * 10 + DigitValue(s[|s| - 1])
  }

  /** `str::parse::<uN>()` with `max` the type's largest value: an optional '+',
      then one or more digits, and the value must fit. */
  function ParseUnsigned(s: string, max: nat): (r: Option<nat>)
    ensures r.Some? ==> r.value <= max
  {
    var body := if s != [] && s[0] == '+' then s[1..] else s;
    if body == [] || !AllDigits(body) then None
    else if DigitsValue(body) > max then None
    else Some(DigitsValue(body))
  }

  function NatToString(n: nat): (r: string)
    ensures r != [] && AllDigits(r)
  {
    if n < 10 then [DigitChar(n)] else NatToString(n / 10) + [DigitChar(n % 10)]
  }

  function DigitChar(d: nat): (c: char)
    requires d < 10
    ensures IsDigit(c)
  {
    ('0' as int + d) as char
  }

  lemma DigitsValueAppend(s: string, c: char)
    requires AllDigits(s) && IsDigit(c)
    ensures AllDigits(s + [c]) && DigitsValue(s + [c]) == DigitsValue(s) * 10 + DigitValue(c)
  {
    assert (s + [c])[..|s|] == s;
  }

  /** Printing a number and parsing it back gives the number. */
  lemma {:induction false} NatToStringValue(n: nat)
    ensures DigitsValue(NatToString(n)) == n
  {
    if n >= 10 {
      NatToStringValue(n / 10);
      DigitsValueAppend(NatToString(n / 10), DigitChar(n % 10));
    }
  }

  lemma ParseNatToString(n: nat, max: nat)
    requires n <= max
    ensures ParseUnsigned(NatToString(n), max) == Some(n)
  {
    NatToStringValue(n);
  }

  function IntToString(n: int): string
  {
    if n < 0 then "-" + NatToString(-n) else NatToString(n)
  }

  function Min(a: int, b: int): int { if a <= b then a else b }
  function Max(a: int, b: int): int { if a >= b then a else b }

  /** `usize::saturating_sub`. */
  function SatSub(a: nat, b: nat): nat { if a >= b then a - b else 0 }

  function Sum(s: seq<nat>): nat
  {
    if s == [] then 0 else s[0] + Sum(s[1..])
  }

  function Count<T(==)>(s: seq<T>, x: T): (n: nat)
    ensures n <= |s|
  {
    if s == [] then 0 else (if s[0] == x then 1 else 0) + Count(s[1..], x)
  }

  lemma CountAppend<T>(a: seq<T>, b: seq<T>, x: T)
    ensures Count(a + b, x) == Count(a, x) + Count(b, x)
  {
    if a == [] {
      assert a + b == b;
    } else {
      assert (a + b)[1..] == a[1..] + b;
      CountAppend(a[1..], b, x);
    }
  }

  // ---------------------------------------------------------------------
  // Orderings

  /** `std::cmp::Ordering`. */
  datatype Ordering = Less | Equal | Greater
  {
    function Reverse(): Ordering
    {
      match this
      case Less => Greater
      case Equal => Equal
      case Greater => Less
    }
  }

  function CompareInt(a: int, b: int): (o: Ordering)
    ensures o == Less <==> a < b
    ensures o == Equal <==> a == b
  {
    if a < b then Less else if a == b then Equal else Greater
  }

  /** Lexicographic comparison by character code, as `str::cmp` orders UTF-8 bytes. */
  function CompareStr(a: string, b: string): Ordering
  {
    if a == [] && b == [] then Equal
    else if a == [] then Less
    else if b == [] then Greater
    else if a[0] < b[0] then Less
    else if a[0] > b[0] then Greater
    else CompareStr(a[1..], b[1..])
  }

  lemma {:induction false} CompareStrReverse(a: string, b: string)
    ensures CompareStr(b, a) == CompareStr(a, b).Reverse()
    ensures CompareStr(a, b) == Equal <==> a == b
  {
    if a != [] && b != [] && a[0] == b[0] {
      CompareStrReverse(a[1..], b[1..]);
      assert a == [a[0]] + a[1..] && b == [b[0]] + b[1..];
    }
  }

  lemma {:induction false} CompareStrTransitive(a: string, b: string, c: string)
    requires CompareStr(a, b) == Less && CompareStr(b, c) == Less
    ensures CompareStr(a, c) == Less
  {
    if a != [] && b != [] && c != [] && a[0] == b[0] && b[0] == c[0] {
      CompareStrTransitive(a[1..], b[1..], c[1..]);
    }
  }
  /** Strings ordered by `str::cmp`, equal ones included. */
  predicate StrLe(a: string, b: string) { CompareStr(a, b) != Greater }

  lemma StrLeTotal(a: string, b: string)
    ensures StrLe(a, b) || StrLe(b, a)
  {
    CompareStrReverse(a, b);
  }

  lemma StrLeTransitive(a: string, b: string, c: string)
    requires StrLe(a, b) && StrLe(b, c)
    ensures StrLe(a, c)
  {
    CompareStrReverse(a, b);
    CompareStrReverse(b, c);
    CompareStrReverse(a, c);
    if a != b && b != c {
      CompareStrTransitive(a, b, c);
    }
  }

  // ---------------------------------------------------------------------
  // Sorting by a total preorder

  /** `le` relates every pair one way or the other. */
  ghost predicate Total<T(!new)>(le: (T, T) -> bool)
  {
    forall a, b :: le(a, b) || le(b, a)
  }

  ghost predicate Transitive<T(!new)>(le: (T, T) -> bool)
  {
    forall a, b, c :: le(a, b) && le(b, c) ==> le(a, c)
  }

  /** Each element is related by `le` to the next. */
  predicate SortedBy<T>(s: seq<T>, le: (T, T) -> bool)
  {
    forall k :: 0 <= k < |s| - 1 ==> le(s[k], s[k + 1])
  }

  /** Inserts `x` before the first element it is related to. */
  function InsertBy<T(!new)>(x: T, s: seq<T>, le: (T, T) -> bool): (r: seq<T>)
    requires Total(le) && SortedBy(s, le)
    ensures SortedBy(r, le)
    ensures multiset(r) == multiset(s) + multiset{x}
    ensures |r| == |s| + 1
    ensures r[0] == x || (s != [] && r[0] == s[0])
  {
    if s == [] then [x]
    else if le(x, s[0]) then [x] + s
    else
      var rest := InsertBy(x, s[1..], le);
      assert s == [s[0]] + s[1..];
      [s[0]] + rest
  }

  /** A stable insertion sort: elements `le` places together keep their input order. */
  function SortBy<T(!new)>(s: seq<T>, le: (T, T) -> bool): (r: seq<T>)
    requires Total(le)
    ensures SortedBy(r, le)
    ensures multiset(r) == multiset(s)
    ensures |r| == |s|
  {
    if s == [] then []
    else
      assert s == [s[0]] + s[1..];
      InsertBy(s[0], SortBy(s[1..], le), le)
  }

  /** In a sorted sequence every element is related to every later one. */
  lemma {:induction false} SortedByGlobal<T(!new)>(s: seq<T>, le: (T, T) -> bool, i: nat, j: nat)
    requires Total(le) && Transitive(le) && SortedBy(s, le) && i <= j < |s|
    ensures le(s[i], s[j])
    decreases j - i
  {
    if i < j {
      SortedByGlobal(s, le, i + 1, j);
    }
  }

  // ---------------------------------------------------------------------
  // Text editing at a cursor

  /** Typing a character at the cursor: the character goes in before the
      cursor's position and the cursor moves past it. */
  function InsertAt(name: string, cursor: nat, ch: char): (r: (string, nat))
    requires cursor <= |name|
    ensures |r.0| == |name| + 1 && r.1 == cursor + 1 && r.0[cursor] == ch
    ensures r.0[..cursor] == name[..cursor] && r.0[cursor + 1..] == name[cursor..]
  {
    (name[..cursor] + [ch] + name[cursor..], cursor + 1)
  }

  /** Backspace: the character before the cursor goes and the cursor moves
      back onto its place; nothing happens at the start. */
  function DeleteBefore(name: string, cursor: nat): (r: (string, nat))
    requires cursor <= |name|
    ensures cursor == 0 ==> r == (name, cursor)
    ensures cursor > 0 ==> (|r.0| == |name| - 1 && r.1 == cursor - 1
                            && r.0 == name[..cursor - 1] + name[cursor..])
  {
    if cursor == 0 then (name, cursor) else (name[..cursor - 1] + name[cursor..], cursor - 1)
  }

  /** Backspace right after typing restores the name and the cursor. */
  lemma DeleteUndoesInsert(name: string, cursor: nat, ch: char)
    requires cursor <= |name|
    ensures DeleteBefore(InsertAt(name, cursor, ch).0, cursor + 1) == (name, cursor)
  {
    var r := InsertAt(name, cursor, ch).0;
    assert r[..cursor] + r[cursor + 1..] == name;
  }

  // ---------------------------------------------------------------------
  // Single-quote escaping for a POSIX shell and how the shell reads it back

  /** `value.replace('\'', "'\\''")`: every quote closed, escaped and reopened. */
  function Escape(v: string): (r: string)
    ensures |r| >= |v|
  {
    if v == [] then []
    else (if v[0] == '\'' then "'\\''" else [v[0]]) + Escape(v[1..])
  }

  lemma {:induction false} EscapeAppend(a: string, b: string)
    ensures Escape(a + b) == Escape(a) + Escape(b)
  {
    if a != [] {
      assert (a + b)[1..] == a[1..] + b;
      EscapeAppend(a[1..], b);
    } else {
      assert a + b == b;
    }
  }

  lemma {:induction false} EscapeNoQuote(v: string)
    requires '\'' !in v
    ensures Escape(v) == v
  {
    if v != [] {
      assert '\'' !in v[1..];
      EscapeNoQuote(v[1..]);
    }
  }

  /** A leading quote becomes '\\''. */
  lemma EscapeQuoteFirst(b: string)
    ensures Escape("'" + b) == "'\\''" + Escape(b)
  {
    var s := "'" + b;
    assert s[1..] == b;
  }

  /** A value in single quotes, as the commands write it. */
  function Quoted(v: string): (r: string)
    ensures |r| >= 2 && r[0] == '\'' && r[|r| - 1] == '\''
  {
    "'" + Escape(v) + "'"
  }

  /** Regrouping a concatenation of seven parts. */
  lemma Regroup(q: string, a: string, bsq: string, eb: string)
    ensures q + (a + ((q + (bsq + q)) + eb)) + q == q + a + q + (bsq + (q + eb + q))
  {
  }

  /** Quoting a value at its first quote: the run before it, the quote
      closed, an escaped quote, and the rest quoted again. */
  lemma QuotedSplit(a: string, b: string)
    requires '\'' !in a
    ensures Quoted(a + ("'" + b)) == "'" + a + "'" + ("\\'" + Quoted(b))
  {
    EscapeAppend(a, "'" + b);
    EscapeNoQuote(a);
    EscapeQuoteFirst(b);
    assert "'\\''" == "'" + ("\\'" + "'");
    Regroup("'", a, "\\'", Escape(b));
  }

  /** How a POSIX shell reads one word made of single-quoted runs, which
      end at the next quote, backslash-escaped characters and plain
      characters; nothing when a quote is left open or a backslash ends the
      word. */
  function ShellRead(s: string): (r: Option<string>)
    decreases |s|
  {
    if s == [] then Some([])
    else if s[0] == '\'' then
      match FindChar(s[1..], '\'')
      case None => None
      case Some(j) =>
        match ShellRead(s[j + 2..])
        case None => None
        case Some(t) => Some(s[1..j + 1] + t)
    else if s[0] == '\\' then
      if |s| < 2 then None
      else match ShellRead(s[2..])
        case None => None
        case Some(t) => Some([s[1]] + t)
    else
      match ShellRead(s[1..])
      case None => None
      case Some(t) => Some([s[0]] + t)
  }

  /** A single-quoted run is read as it stands. */
  lemma ReadQuotedRun(a: string, rest: string)
    requires '\'' !in a
    ensures ShellRead("'" + a + "'" + rest)
            == match ShellRead(rest) case None => None case Some(t) => Some(a + t)
  {
    var s := "'" + a + "'" + rest;
    assert s[1..] == a + ['\''] + rest;
    FindCharAfter(a, '\'', rest);
    assert s[|a| + 2..] == rest;
    assert s[1..|a| + 1] == a;
  }

  /** A backslash-escaped character is read as itself. */
  lemma ReadEscaped(c: char, rest: string)
    ensures ShellRead(['\\', c] + rest)
            == match ShellRead(rest) case None => None case Some(t) => Some([c] + t)
  {
    var s := ['\\', c] + rest;
    assert s[2..] == rest;
  }

  /** A value without quotes is read back from its quoted form. */
  lemma QuotedPlain(v: string)
    requires '\'' !in v
    ensures ShellRead(Quoted(v)) == Some(v)
  {
    EscapeNoQuote(v);
    ReadQuotedRun(v, []);
    assert Quoted(v) == "'" + v + "'" + [];
    assert ShellRead([]) == Some([]);
    assert v + [] == v;
  }

  /** The shell reads every quoted value back as it was. */
  lemma {:induction false} QuotedRoundTrip(v: string)
    ensures ShellRead(Quoted(v)) == Some(v)
    decreases |v|
  {
    if '\'' !in v {
      QuotedPlain(v);
    } else {
      var q := FindChar(v, '\'').value;
      var a, b := v[..q], v[q + 1..];
      assert v == a + ("'" + b);
      assert '\'' !in a by {
        forall j | 0 <= j < |a| ensures a[j] != '\'' { assert a[j] == v[j]; }
      }
      QuotedSplit(a, b);
      ReadQuotedRun(a, "\\'" + Quoted(b));
      QuotedRoundTrip(b);
      ReadEscaped('\'', Quoted(b));
      assert "\\'" + Quoted(b) == ['\\', '\''] + Quoted(b);
    }
  }
}
