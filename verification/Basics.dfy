/** Small vocabulary shared by every module of the model. */
module Basics {
  datatype Option<+T> = None | Some(value: T)

  function OrElse<T>(o: Option<T>, otherwise: T): T {
    if o.Some? then o.value else otherwise
  }

  /** ASCII lower-casing of one character, the part of `toLowerCase` that host names and headers need. */
  function LowerChar(c: char): char {
    if 'A' <= c <= 'Z' then (c as int + 32) as char else c
  }

  function ToLower(s: string): (r: string)
    ensures |r| == |s|
  {
    seq(|s|, i requires 0 <= i < |s| => LowerChar(s[i]))
  }

  /** The same letter, upper or lower case, or the same character. */
  predicate SameLetter(x: char, y: char) {
    x == y || ('A' <= x <= 'Z' && y as int == x as int + 32) || ('A' <= y <= 'Z' && x as int == y as int + 32)
  }

  predicate SameButForCase(a: string, b: string) {
    |a| == |b| && forall i :: 0 <= i < |a| ==> SameLetter(a[i], b[i])
  }

  lemma ToLowerIgnoresCase(a: string, b: string)
    ensures ToLower(a) == ToLower(b) <==> SameButForCase(a, b)
  {
    if |a| == |b| {
      forall i | 0 <= i < |a| ensures ToLower(a)[i] == ToLower(b)[i] <==> SameLetter(a[i], b[i]) { }
    }
  }

  /** The white space and line terminators that `trim` and `\s` of ECMAScript know. */
  predicate IsSpace(c: char) {
    || c == ' ' || '\t' <= c <= '\r' || c == '\U{A0}' || c == '\U{FEFF}'
    || IsUnicodeSpace(c)
  }

  predicate IsUnicodeSpace(c: char) {
    || c == '\U{1680}' || '\U{2000}' <= c <= '\U{200A}' || c == '\U{2028}' || c == '\U{2029}'
    || c == '\U{202F}' || c == '\U{205F}' || c == '\U{3000}'
  }

  function TrimStart(s: string): string {
    if s != "" && IsSpace(s[0]) then TrimStart(s[1..]) else s
  }

  function TrimEnd(s: string): string {
    if s != "" && IsSpace(s[|s| - 1]) then TrimEnd(s[..|s| - 1]) else s
  }

  function Trim(s: string): string {
    TrimEnd(TrimStart(s))
  }

  lemma {:induction false} TrimEndKeepsHead(s: string)
    requires s == "" || !IsSpace(s[0])
    ensures TrimEnd(s) <= s
    ensures TrimEnd(s) != "" ==> !IsSpace(TrimEnd(s)[|TrimEnd(s)| - 1]) && TrimEnd(s)[0] == s[0]
    ensures s != "" ==> TrimEnd(s) != ""
  {
    if s != "" && IsSpace(s[|s| - 1]) {
      TrimEndKeepsHead(s[..|s| - 1]);
    }
  }

  lemma {:induction false} TrimStartTrims(s: string)
    ensures TrimStart(s) == "" || !IsSpace(TrimStart(s)[0])
  {
    if s != "" && IsSpace(s[0]) {
      TrimStartTrims(s[1..]);
    }
  }

  lemma TrimIsIdempotent(s: string)
    ensures Trim(Trim(s)) == Trim(s)
  {
    TrimStartTrims(s);
    TrimEndKeepsHead(TrimStart(s));
  }

  predicate Trimmed(s: string) {
    s == "" || (!IsSpace(s[0]) && !IsSpace(s[|s| - 1]))
  }

  lemma TrimOfTrimmed(s: string)
    requires Trimmed(s)
    ensures Trim(s) == s && Trim(s + " ") == s && Trim(" " + s) == s
  {
    assert (s + " ")[..|s|] == s && (" " + s)[1..] == s;
    if s == "" { assert TrimStart(" ") == TrimStart(""); }
  }

  function StripSlashes(s: string): string {
    if s != "" && s[|s| - 1] == '/' then StripSlashes(s[..|s| - 1]) else s
  }

  /** What stripping keeps: everything up to the last character that is no slash. */
  lemma {:induction false} Stripped(s: string)
    ensures StripSlashes(s) <= s && forall i :: |StripSlashes(s)| <= i < |s| ==> s[i] == '/'
    ensures StripSlashes(s) == "" || StripSlashes(s)[|StripSlashes(s)| - 1] != '/'
  {
    if s != "" && s[|s| - 1] == '/' { Stripped(s[..|s| - 1]); }
  }

  lemma SameAfterStripping(x: string, y: string, n: nat)
    requires n <= |x| && n <= |y| && x[..n] == y[..n]
    requires (forall i :: n <= i < |x| ==> x[i] == '/') && (forall i :: n <= i < |y| ==> y[i] == '/')
    ensures StripSlashes(x) == StripSlashes(y)
  {
    Stripped(x);
    Stripped(y);
    hide StripSlashes;
    var p, q := StripSlashes(x), StripSlashes(y);
    assert |p| <= n && |q| <= n;
    assert p == x[..n][..|p|] && q == x[..n][..|q|];
    assert forall i :: 0 <= i < n ==> x[i] == x[..n][i] && y[i] == x[..n][i];
  }

  /** The same text up to slashes at the end. */
  ghost predicate SameButForEndSlashes(a: string, b: string) {
    exists n: nat | n <= |a| && n <= |b| :: SlashesFrom(a, n) && SlashesFrom(b, n) && a[..n] == b[..n]
  }

  predicate SlashesFrom(s: string, n: nat) {
    forall i :: n <= i < |s| ==> s[i] == '/'
  }

  lemma StrippedAlikeExactly(a: string, b: string)
    ensures StripSlashes(a) == StripSlashes(b) <==> SameButForEndSlashes(a, b)
  {
    if StripSlashes(a) == StripSlashes(b) {
      Stripped(a);
      Stripped(b);
      var n := |StripSlashes(a)|;
      assert SlashesFrom(a, n) && SlashesFrom(b, n) && a[..n] == StripSlashes(a) && b[..n] == StripSlashes(b);
    }
    if SameButForEndSlashes(a, b) {
      var n: nat :| n <= |a| && n <= |b| && SlashesFrom(a, n) && SlashesFrom(b, n) && a[..n] == b[..n];
      SameAfterStripping(a, b, n);
    }
  }

  function IndexOf(s: string, c: char): Option<nat> {
    if s == "" then None
    else if s[0] == c then Some(0)
    else match IndexOf(s[1..], c) case Some(i) => Some(i + 1) case None => None
  }

  lemma {:induction false} IndexOfFirst(before: string, c: char, after: string)
    requires c !in before
    ensures IndexOf(before + [c] + after, c) == Some(|before|)
  {
    if before != "" {
      IndexOfFirst(before[1..], c, after);
      assert (before + [c] + after)[1..] == before[1..] + [c] + after;
    }
  }

  function Join(parts: seq<string>, separator: string): string {
    if parts == [] then ""
    else if |parts| == 1 then parts[0]
    else parts[0] + separator + Join(parts[1..], separator)
  }

  function Split(s: string, separator: char): (parts: seq<string>)
    ensures parts != []
  {
    match IndexOf(s, separator)
    case None => [s]
    case Some(i) => if i < |s| then [s[..i]] + Split(s[i + 1..], separator) else [s]
  }

  lemma {:induction false} IndexOfNone(s: string, c: char)
    ensures IndexOf(s, c).None? <==> c !in s
    ensures IndexOf(s, c).Some? ==> IndexOf(s, c).value < |s| && s[IndexOf(s, c).value] == c && c !in s[..IndexOf(s, c).value]
  {
    if s != "" {
      IndexOfNone(s[1..], c);
      assert s == [s[0]] + s[1..];
      var i := IndexOf(s[1..], c);
      if s[0] != c && i.Some? { assert s[..i.value + 1] == [s[0]] + s[1..][..i.value]; }
    }
  }

  /** Joining and splitting on a character the parts do not contain. */
  lemma {:induction false} SplitOfJoin(parts: seq<string>, separator: char)
    requires parts != [] && forall p :: p in parts ==> separator !in p
    ensures Split(Join(parts, [separator]), separator) == parts
  {
    IndexOfNone(parts[0], separator);
    if |parts| > 1 {
      var rest := Join(parts[1..], [separator]);
      IndexOfFirst(parts[0], separator, rest);
      var s := parts[0] + [separator] + rest;
      assert Join(parts, [separator]) == s;
      assert s[..|parts[0]|] == parts[0] && s[|parts[0]| + 1..] == rest;
      SplitOfJoin(parts[1..], separator);
    }
  }

  predicate OccursAt(s: string, part: string, i: nat) {
    i + |part| <= |s| && s[i..i + |part|] == part
  }

  predicate Contains(s: string, part: string) {
    exists i: nat | i <= |s| :: OccursAt(s, part, i)
  }

  function Digits(n: nat): string {
    var last := [('0' as int + n % 10) as char];
    if n < 10 then last else Digits(n / 10) + last
  }

  function Decimal(n: int): string {
    if n < 0 then "-" + Digits(-n) else Digits(n)
  }

  function Max(a: int, b: int): int {
    if a < b then b else a
  }

  function Min(a: int, b: int): int {
    if a < b then a else b
  }
}
