/**
 * The TOML merge writer on the structure of a file: a preamble and sections, each a header line and its
 * body. What `configure` does to it, what it leaves alone, and when it reports success.
 */
module TomlConfig {
  import opened Basics
  import opened TomlStrings
  import opened TomlValues
  import opened TomlLines

  datatype Comparison = Exact | Path | Url

  datatype Property = Property(value: Value, required: bool, comparison: Comparison)

  /** `normalizeUrl` stands for the platform's URL parser; nothing is assumed of it. */
  datatype Config = Config(
    serverName: string,
    bodyPath: string,
    deprecated: seq<string>,
    properties: map<string, Property>,
    toRemove: set<string>,
    identityKeys: seq<string>,
    normalizeUrl: string -> string)

  // ── Comparing values ──────────────────────────────────────────────────────────────────────────

  function NormalizePath(s: string): string {
    StripSlashes(ReplaceChar(s, BACKSLASH, "/"))
  }

  predicate Equivalent(cfg: Config, how: Comparison, a: string, b: string) {
    match how
    case Path => NormalizePath(a) == NormalizePath(b)
    case Url => ToLower(cfg.normalizeUrl(a)) == ToLower(cfg.normalizeUrl(b))
    case Exact => a == b
  }

  predicate ValuesMatch(cfg: Config, how: Comparison, expected: Value, actual: Value) {
    match (expected, actual)
    case (Text(a), Text(b)) => Equivalent(cfg, how, a, b)
    case (Bool(a), Bool(b)) => a == b
    case (Number(a), Number(b)) => a == b
    case (Texts(a), Texts(b)) => |a| == |b| && forall i :: 0 <= i < |a| ==> Equivalent(cfg, how, a[i], b[i])
    case (Numbers(a), Numbers(b)) => a == b
    case (Bools(a), Bools(b)) => a == b
    case _ => false
  }

  /** Scalars and arrays can be recognised on disk; tables and raw values never are. */
  predicate Matchable(v: Value) {
    !v.Table? && !v.Raw?
  }

  lemma {:induction false} ReplaceCharAt(s: string, c: char, with: char)
    ensures |ReplaceChar(s, c, [with])| == |s|
    ensures forall i :: 0 <= i < |s| ==> ReplaceChar(s, c, [with])[i] == if s[i] == c then with else s[i]
  {
    if s != "" { ReplaceCharAt(s[1..], c, with); }
  }

  predicate IsSlash(c: char) {
    c == '/' || c == BACKSLASH
  }

  /** The same up to the direction of the slashes and to slashes at the end. */
  ghost predicate SamePath(a: string, b: string) {
    exists n: nat | n <= |a| && n <= |b| :: SameUpTo(a, b, n)
  }

  predicate SameUpTo(a: string, b: string, n: nat)
    requires n <= |a| && n <= |b|
  {
    && (forall i :: 0 <= i < n ==> a[i] == b[i] || (IsSlash(a[i]) && IsSlash(b[i])))
    && (forall i :: n <= i < |a| ==> IsSlash(a[i])) && (forall i :: n <= i < |b| ==> IsSlash(b[i]))
  }

  /** `x` is `a` with its slashes turned forward. */
  predicate Turned(a: string, x: string) {
    |x| == |a| && forall i :: 0 <= i < |a| ==> x[i] == if IsSlash(a[i]) then '/' else a[i]
  }

  lemma SamePathStrips(a: string, b: string, x: string, y: string, n: nat)
    requires Turned(a, x) && Turned(b, y) && n <= |a| && n <= |b| && SameUpTo(a, b, n)
    ensures StripSlashes(x) == StripSlashes(y)
  {
    assert forall i :: 0 <= i < n ==> x[i] == y[i];
    SameAfterStripping(x, y, n);
  }

  lemma StripsToSamePath(a: string, b: string, x: string, y: string)
    requires Turned(a, x) && Turned(b, y) && StripSlashes(x) == StripSlashes(y)
    ensures SamePath(a, b)
  {
    Stripped(x);
    Stripped(y);
    var p := StripSlashes(x);
    hide StripSlashes;
    assert forall i :: 0 <= i < |p| ==> x[i] == p[i] && y[i] == p[i];
    assert SameUpTo(a, b, |p|);
  }

  lemma PathsAreEquivalentExactly(cfg: Config, a: string, b: string)
    ensures Equivalent(cfg, Path, a, b) <==> SamePath(a, b)
  {
    var x, y := ReplaceChar(a, BACKSLASH, "/"), ReplaceChar(b, BACKSLASH, "/");
    assert ['/'] == "/";
    ReplaceCharAt(a, BACKSLASH, '/');
    ReplaceCharAt(b, BACKSLASH, '/');
    assert Turned(a, x) && Turned(b, y);
    hide StripSlashes, ReplaceChar, Turned, SameUpTo;
    if StripSlashes(x) == StripSlashes(y) { StripsToSamePath(a, b, x, y); }
    if SamePath(a, b) {
      var n: nat :| n <= |a| && n <= |b| && SameUpTo(a, b, n);
      SamePathStrips(a, b, x, y, n);
    }
  }

  /** When two texts count as the same: as they stand, as paths, or as normalised URLs but for case. */
  lemma EquivalentExactly(cfg: Config, how: Comparison, a: string, b: string)
    ensures Equivalent(cfg, how, a, b) <==>
              match how
              case Exact => a == b
              case Path => SamePath(a, b)
              case Url => SameButForCase(cfg.normalizeUrl(a), cfg.normalizeUrl(b))
  {
    PathsAreEquivalentExactly(cfg, a, b);
    ToLowerIgnoresCase(cfg.normalizeUrl(a), cfg.normalizeUrl(b));
    hide SamePath, SameButForCase, NormalizePath, ToLower;
  }

  lemma MatchesItselfExactly(cfg: Config, how: Comparison, v: Value)
    ensures ValuesMatch(cfg, how, v, v) <==> Matchable(v)
  {
  }

  // ── Ordinal order ─────────────────────────────────────────────────────────────────────────────

  predicate Leq(a: string, b: string) {
    a == "" || (b != "" && (a[0] < b[0] || (a[0] == b[0] && Leq(a[1..], b[1..]))))
  }

  lemma {:induction false} LeqIsTotal(a: string, b: string)
    ensures Leq(a, b) || Leq(b, a)
  {
    if a != "" && b != "" { LeqIsTotal(a[1..], b[1..]); }
  }

  lemma {:induction false} LeqIsAntisymmetric(a: string, b: string)
    requires Leq(a, b) && Leq(b, a)
    ensures a == b
  {
    if a != "" && b != "" {
      LeqIsAntisymmetric(a[1..], b[1..]);
      assert a == [a[0]] + a[1..] && b == [b[0]] + b[1..];
    }
  }

  lemma {:induction false} LeqIsTransitive(a: string, b: string, c: string)
    requires Leq(a, b) && Leq(b, c)
    ensures Leq(a, c)
  {
    if a != "" && a[0] == b[0] && b[0] == c[0] { LeqIsTransitive(a[1..], b[1..], c[1..]); }
  }

  predicate IsLeast(keys: set<string>, m: string) {
    m in keys && forall k :: k in keys ==> Leq(m, k)
  }

  lemma {:induction false} LeastExists(keys: set<string>)
    requires keys != {}
    ensures exists m :: IsLeast(keys, m)
  {
    var x :| x in keys;
    if keys == {x} {
      LeqIsTotal(x, x);
      assert IsLeast(keys, x);
    } else {
      LeastExists(keys - {x});
      var m :| IsLeast(keys - {x}, m);
      LeqIsTotal(x, m);
      LeqIsTotal(x, x);
      if Leq(x, m) {
        forall k | k in keys ensures Leq(x, k) { if k != x { LeqIsTransitive(x, m, k); } }
        assert IsLeast(keys, x);
      } else {
        assert IsLeast(keys, m);
      }
    }
  }

  function Least(keys: set<string>): (m: string)
    requires keys != {}
    ensures IsLeast(keys, m)
  {
    LeastExists(keys);
    assert forall m, n :: IsLeast(keys, m) && IsLeast(keys, n) ==> m == n by {
      forall m, n | IsLeast(keys, m) && IsLeast(keys, n) ensures m == n { LeqIsAntisymmetric(m, n); }
    }
    var m :| IsLeast(keys, m);
    m
  }

  function SortedKeys(keys: set<string>): (ks: seq<string>)
    ensures forall k :: k in ks <==> k in keys
    ensures forall i, j :: 0 <= i < j < |ks| ==> ks[i] != ks[j] && Leq(ks[i], ks[j])
    decreases |keys|
  {
    if keys == {} then [] else [Least(keys)] + SortedKeys(keys - {Least(keys)})
  }

  // ── Sections as property maps ─────────────────────────────────────────────────────────────────

  type Properties = map<string, Value>

  function ParseLines(lines: seq<string>): Properties {
    if lines == [] then map[]
    else
      var m := ParseLines(lines[..|lines| - 1]);
      match ParseProperty(lines[|lines| - 1])
      case Some((key, v)) => m[key := v]
      case None => m
  }

  /** Line `i` sets this key, and no later line does. */
  predicate SetsLast(lines: seq<string>, i: nat, key: string) {
    && i < |lines| && ParseProperty(lines[i]).Some? && ParseProperty(lines[i]).value.0 == key
    && forall j :: i < j < |lines| && ParseProperty(lines[j]).Some? ==> ParseProperty(lines[j]).value.0 != key
  }

  /** What a section reads as: each key has the value its last line gives it. */
  lemma {:induction false} LastLineWins(lines: seq<string>, i: nat, key: string)
    requires SetsLast(lines, i, key)
    ensures key in ParseLines(lines) && ParseLines(lines)[key] == ParseProperty(lines[i]).value.1
  {
    hide ParseProperty;
    var n := |lines| - 1;
    if i < n {
      assert forall j :: 0 <= j < n ==> lines[..n][j] == lines[j];
      LastLineWins(lines[..n], i, key);
    }
  }

  /** And a key no line sets is not there. */
  lemma {:induction false} OnlyKeysSet(lines: seq<string>, key: string)
    requires forall i :: 0 <= i < |lines| && ParseProperty(lines[i]).Some? ==> ParseProperty(lines[i]).value.0 != key
    ensures key !in ParseLines(lines)
  {
    hide ParseProperty;
    if lines != [] {
      assert forall j :: 0 <= j < |lines| - 1 ==> lines[..|lines| - 1][j] == lines[j];
      OnlyKeysSet(lines[..|lines| - 1], key);
    }
  }

  function PrintKeys(m: Properties, ks: seq<string>): seq<string>
    requires forall k :: k in ks ==> k in m
  {
    seq(|ks|, i requires 0 <= i < |ks| => FormatTomlProperty(ks[i], m[ks[i]]))
  }

  function PropertyLines(m: Properties): seq<string> {
    PrintKeys(m, SortedKeys(m.Keys))
  }

  predicate PrintableAll(m: Properties) {
    forall k :: k in m ==> GoodKey(k) && Printable(m[k])
  }

  lemma {:induction false} PrintedKeysReadBack(m: Properties, ks: seq<string>)
    requires PrintableAll(m) && (forall k :: k in ks ==> k in m)
    ensures ParseLines(PrintKeys(m, ks)) == map k | k in ks :: m[k]
  {
    hide FormatTomlProperty, ParseProperty, Printable, GoodKey;
    if ks != [] {
      var n := |ks| - 1;
      PrintedKeysReadBack(m, ks[..n]);
      assert ks == ks[..n] + [ks[n]];
      assert PrintKeys(m, ks)[..n] == PrintKeys(m, ks[..n]);
      assert PrintKeys(m, ks)[n] == FormatTomlProperty(ks[n], m[ks[n]]);
      PropertyReadsBack(ks[n], m[ks[n]]);
    }
  }

  /** A whole printed section reads back as the properties it was printed from. */
  lemma SectionReadsBack(m: Properties)
    requires PrintableAll(m)
    ensures ParseLines(PropertyLines(m)) == m
  {
    PrintedKeysReadBack(m, SortedKeys(m.Keys));
  }

  // ── Files as sections ─────────────────────────────────────────────────────────────────────────

  datatype Block = Block(header: string, body: seq<string>)
  datatype File = File(preamble: seq<string>, blocks: seq<Block>)

  predicate IsHeader(line: string) {
    var t := Trim(line);
    t != "" && t[0] == '[' && t[|t| - 1] == ']'
  }

  function BlockLines(b: Block): seq<string> {
    [b.header] + b.body
  }

  function FlattenBlocks(bs: seq<Block>): seq<string> {
    if bs == [] then [] else BlockLines(bs[0]) + FlattenBlocks(bs[1..])
  }

  function Flatten(f: File): seq<string> {
    f.preamble + FlattenBlocks(f.blocks)
  }

  /** One more line at the end of a file that starts no section. */
  function PlusLine(f: File, line: string): File {
    if f.blocks == [] then f.(preamble := f.preamble + [line])
    else
      var n := |f.blocks| - 1;
      f.(blocks := f.blocks[..n] + [Block(f.blocks[n].header, f.blocks[n].body + [line])])
  }

  function ReadFile(lines: seq<string>): File {
    if lines == [] then File([], [])
    else
      var f, line := ReadFile(lines[..|lines| - 1]), lines[|lines| - 1];
      if IsHeader(line) then f.(blocks := f.blocks + [Block(line, [])]) else PlusLine(f, line)
  }

  predicate NoHeaders(lines: seq<string>) {
    forall l :: l in lines ==> !IsHeader(l)
  }

  predicate BlockOk(b: Block) {
    IsHeader(b.header) && NoHeaders(b.body)
  }

  predicate WellFormed(f: File) {
    NoHeaders(f.preamble) && forall b :: b in f.blocks ==> BlockOk(b)
  }

  lemma {:induction false} FlattenAppend(a: seq<Block>, b: seq<Block>)
    ensures FlattenBlocks(a + b) == FlattenBlocks(a) + FlattenBlocks(b)
  {
    if a == [] {
      assert a + b == b;
    } else {
      FlattenAppend(a[1..], b);
      assert (a + b)[1..] == a[1..] + b;
    }
  }

  lemma FlattenOne(b: Block)
    ensures FlattenBlocks([b]) == BlockLines(b)
  {
    assert [b][1..] == [];
  }

  lemma FlattenPlusBlock(f: File, b: Block)
    ensures Flatten(f.(blocks := f.blocks + [b])) == Flatten(f) + BlockLines(b)
  {
    FlattenAppend(f.blocks, [b]);
    FlattenOne(b);
  }

  lemma FlattenPlusLine(f: File, line: string)
    ensures Flatten(PlusLine(f, line)) == Flatten(f) + [line]
    ensures WellFormed(f) && !IsHeader(line) ==> WellFormed(PlusLine(f, line))
  {
    if f.blocks != [] {
      var n := |f.blocks| - 1;
      var b, longer := f.blocks[n], Block(f.blocks[n].header, f.blocks[n].body + [line]);
      assert f.blocks == f.blocks[..n] + [b];
      FlattenAppend(f.blocks[..n], [b]);
      FlattenAppend(f.blocks[..n], [longer]);
      FlattenOne(b);
      FlattenOne(longer);
      assert b in f.blocks;
    }
  }

  /** Reading a file into sections loses no line. */
  lemma {:induction false} FlattenOfRead(lines: seq<string>)
    ensures Flatten(ReadFile(lines)) == lines && WellFormed(ReadFile(lines))
  {
    hide IsHeader, PlusLine;
    if lines != [] {
      var n := |lines| - 1;
      var f := ReadFile(lines[..n]);
      FlattenOfRead(lines[..n]);
      assert lines == lines[..n] + [lines[n]];
      if IsHeader(lines[n]) {
        FlattenAppend(f.blocks, [Block(lines[n], [])]);
        FlattenOne(Block(lines[n], []));
      } else {
        FlattenPlusLine(f, lines[n]);
      }
    }
  }

  lemma ReadPlusLine(f: File, line: string)
    requires ReadFile(Flatten(f)) == f && !IsHeader(line)
    ensures ReadFile(Flatten(f) + [line]) == PlusLine(f, line)
  {
    assert (Flatten(f) + [line])[..|Flatten(f)|] == Flatten(f);
  }

  lemma ReadPlusHeader(f: File, header: string)
    requires ReadFile(Flatten(f)) == f && IsHeader(header)
    ensures
      var g := f.(blocks := f.blocks + [Block(header, [])]);
      Flatten(g) == Flatten(f) + [header] && ReadFile(Flatten(g)) == g
  {
    FlattenAppend(f.blocks, [Block(header, [])]);
    FlattenOne(Block(header, []));
    assert (Flatten(f) + [header])[..|Flatten(f)|] == Flatten(f);
  }

  lemma {:induction false} ReadBody(f: File, lines: seq<string>)
    requires ReadFile(Flatten(f)) == f && NoHeaders(lines) && f.blocks != []
    ensures
      var n := |f.blocks| - 1;
      var g := f.(blocks := f.blocks[..n] + [Block(f.blocks[n].header, f.blocks[n].body + lines)]);
      ReadFile(Flatten(f) + lines) == g && Flatten(g) == Flatten(f) + lines
  {
    hide IsHeader, ReadFile, Flatten, FlattenBlocks;
    var n := |f.blocks| - 1;
    if lines == [] {
      assert Flatten(f) + lines == Flatten(f) && f.blocks[n].body + lines == f.blocks[n].body;
      assert f.blocks == f.blocks[..n] + [f.blocks[n]];
    } else {
      var k := |lines| - 1;
      var g := f.(blocks := f.blocks[..n] + [Block(f.blocks[n].header, f.blocks[n].body + lines[..k])]);
      assert lines == lines[..k] + [lines[k]];
      ReadBody(f, lines[..k]);
      FlattenPlusLine(g, lines[k]);
      ReadPlusLine(g, lines[k]);
      assert Flatten(f) + lines == Flatten(g) + [lines[k]];
      assert f.blocks[n].body + lines == f.blocks[n].body + lines[..k] + [lines[k]];
      assert g.blocks[..n] == f.blocks[..n];
    }
  }

  lemma {:induction false} ReadPreamble(lines: seq<string>)
    requires NoHeaders(lines)
    ensures ReadFile(lines) == File(lines, [])
  {
    if lines != [] {
      assert lines == lines[..|lines| - 1] + [lines[|lines| - 1]];
      ReadPreamble(lines[..|lines| - 1]);
    }
  }

  lemma ReadOneMore(g: File, b: Block)
    requires ReadFile(Flatten(g)) == g && BlockOk(b)
    ensures
      var f := g.(blocks := g.blocks + [b]);
      ReadFile(Flatten(f)) == f
  {
    hide ReadFile, Flatten, FlattenBlocks, IsHeader;
    var headed := g.(blocks := g.blocks + [Block(b.header, [])]);
    ReadPlusHeader(g, b.header);
    ReadBody(headed, b.body);
    assert headed.blocks[..|g.blocks|] == g.blocks && [] + b.body == b.body;
  }

  /** A well-formed file is what reading its lines gives. */
  lemma {:induction false} ReadOfFlatten(f: File)
    requires WellFormed(f)
    ensures ReadFile(Flatten(f)) == f
    decreases |f.blocks|
  {
    if f.blocks == [] {
      assert Flatten(f) == f.preamble;
      ReadPreamble(f.preamble);
    } else {
      hide ReadFile, Flatten, FlattenBlocks, BlockOk, IsHeader;
      var n := |f.blocks| - 1;
      var b := f.blocks[n];
      assert b in f.blocks;
      ReadOfFlatten(f.(blocks := f.blocks[..n]));
      ReadOneMore(f.(blocks := f.blocks[..n]), b);
      assert f.blocks == f.blocks[..n] + [b];
    }
  }

  // ── What configure does ───────────────────────────────────────────────────────────────────────

  function Title(cfg: Config, name: string): string {
    "[" + cfg.bodyPath + "." + name + "]"
  }

  function OwnTitle(cfg: Config): string {
    Title(cfg, cfg.serverName)
  }

  predicate Titled(b: Block, title: string) {
    Trim(b.header) == title
  }

  function WithoutFirst(bs: seq<Block>, title: string): seq<Block> {
    if bs == [] then []
    else if Titled(bs[0], title) then bs[1..]
    else [bs[0]] + WithoutFirst(bs[1..], title)
  }

  function WithoutDeprecated(cfg: Config, bs: seq<Block>, names: seq<string>): seq<Block>
    decreases |names|
  {
    if names == [] then bs else WithoutDeprecated(cfg, WithoutFirst(bs, Title(cfg, names[0])), names[1..])
  }

  /** Another server's section of the same body path that runs our command or serves our URL. */
  predicate IsDuplicate(cfg: Config, b: Block) {
    var t, prefix := Trim(b.header), "[" + cfg.bodyPath + ".";
    && prefix <= t && t[|t| - 1] == ']' && t != OwnTitle(cfg)
    && var existing := ParseLines(b.body);
    exists key :: key in cfg.identityKeys && SameIdentity(cfg, existing, key)
  }

  predicate SameIdentity(cfg: Config, existing: Properties, key: string) {
    && key in cfg.properties && cfg.properties[key].value.Text?
    && key in existing && existing[key].Text?
    && Equivalent(cfg, cfg.properties[key].comparison, cfg.properties[key].value.text, existing[key].text)
  }

  function WithoutDuplicates(cfg: Config, bs: seq<Block>): seq<Block> {
    if bs == [] then []
    else (if IsDuplicate(cfg, bs[0]) then [] else [bs[0]]) + WithoutDuplicates(cfg, bs[1..])
  }

  function Cleaned(cfg: Config, f: File): File {
    f.(blocks := WithoutDuplicates(cfg, WithoutDeprecated(cfg, f.blocks, cfg.deprecated)))
  }

  function FindBlock(bs: seq<Block>, title: string): (i: Option<nat>)
    ensures i.Some? ==> i.value < |bs| && Titled(bs[i.value], title) && forall k :: 0 <= k < i.value ==> !Titled(bs[k], title)
    ensures i.None? ==> forall k :: 0 <= k < |bs| ==> !Titled(bs[k], title)
  {
    if bs == [] then None
    else if Titled(bs[0], title) then Some(0)
    else match FindBlock(bs[1..], title) case Some(i) => Some(i + 1) case None => None
  }

  function Wanted(cfg: Config): Properties {
    map k | k in cfg.properties :: cfg.properties[k].value
  }

  function Merged(cfg: Config, existing: Properties): Properties {
    (existing - cfg.toRemove) + Wanted(cfg)
  }

  function OwnBlock(cfg: Config, m: Properties): Block {
    Block(OwnTitle(cfg), PropertyLines(m))
  }

  /** A blank line before an appended section, unless the file already ends in one. */
  function Separated(f: File): File {
    var lines := Flatten(f);
    if lines != [] && Trim(lines[|lines| - 1]) != "" then PlusLine(f, "") else f
  }

  function Configured(cfg: Config, f: File): File {
    var c := Cleaned(cfg, f);
    match FindBlock(c.blocks, OwnTitle(cfg))
    case Some(i) => c.(blocks := c.blocks[i := OwnBlock(cfg, Merged(cfg, ParseLines(c.blocks[i].body)))])
    case None =>
      var s := Separated(c);
      s.(blocks := s.blocks + [OwnBlock(cfg, Wanted(cfg))])
  }

  predicate IsConfigured(cfg: Config, f: File) {
    match FindBlock(f.blocks, OwnTitle(cfg))
    case None => false
    case Some(i) =>
      PropertiesMatch(cfg, ParseLines(f.blocks[i].body))
  }

  predicate PropertiesMatch(cfg: Config, existing: Properties) {
    && (forall k :: k in cfg.properties && cfg.properties[k].required ==>
          k in existing && ValuesMatch(cfg, cfg.properties[k].comparison, cfg.properties[k].value, existing[k]))
    && (forall k :: k in cfg.toRemove ==> k !in existing)
  }

  // ── The frame ─────────────────────────────────────────────────────────────────────────────────

  predicate IsDeprecated(cfg: Config, b: Block) {
    exists name :: name in cfg.deprecated && Titled(b, Title(cfg, name))
  }

  /** Titles of sections under the body path. */
  predicate UnderPath(cfg: Config, title: string) {
    "[" + cfg.bodyPath + "." <= title && title[|title| - 1] == ']'
  }

  /** An identity key has a text value there that is equivalent to the text we give it. */
  predicate RunsOurs(cfg: Config, b: Block) {
    var theirs := ParseLines(b.body);
    exists key :: key in cfg.identityKeys && key in cfg.properties && key in theirs
                  && cfg.properties[key].value.Text? && theirs[key].Text?
                  && Equivalent(cfg, cfg.properties[key].comparison, cfg.properties[key].value.text, theirs[key].text)
  }

  /**
   * A section the writer has no business with: not ours, not a deprecated one, and not one under the body path
   * that runs our command or serves our URL.
   */
  predicate Bystander(cfg: Config, b: Block) {
    var title := Trim(b.header);
    && title != OwnTitle(cfg)
    && (forall name :: name in cfg.deprecated ==> title != Title(cfg, name))
    && !(UnderPath(cfg, title) && RunsOurs(cfg, b))
  }

  /** The writer takes for a duplicate exactly another section under the body path that runs ours. */
  lemma DuplicateExactly(cfg: Config, b: Block)
    ensures IsDuplicate(cfg, b) <==> Trim(b.header) != OwnTitle(cfg) && UnderPath(cfg, Trim(b.header)) && RunsOurs(cfg, b)
    ensures Bystander(cfg, b) <==> !Titled(b, OwnTitle(cfg)) && !IsDeprecated(cfg, b) && !IsDuplicate(cfg, b)
  {
    hide ParseLines, Trim, Title, Equivalent;
    var theirs := ParseLines(b.body);
    if RunsOurs(cfg, b) {
      var key :| key in cfg.identityKeys && key in cfg.properties && key in theirs
                 && cfg.properties[key].value.Text? && theirs[key].Text?
                 && Equivalent(cfg, cfg.properties[key].comparison, cfg.properties[key].value.text, theirs[key].text);
      assert SameIdentity(cfg, theirs, key);
    }
    if key :| key in cfg.identityKeys && SameIdentity(cfg, theirs, key) {
      assert key in theirs;
    }
  }

  function BystanderBlocks(cfg: Config, bs: seq<Block>): seq<Block> {
    if bs == [] then []
    else (if Bystander(cfg, bs[0]) then [bs[0]] else []) + BystanderBlocks(cfg, bs[1..])
  }

  /** Every line before the first section and in a bystander, in order. */
  function OutsideLines(cfg: Config, f: File): seq<string> {
    f.preamble + FlattenBlocks(BystanderBlocks(cfg, f.blocks))
  }

  lemma {:induction false} BystandersAppend(cfg: Config, a: seq<Block>, b: seq<Block>)
    ensures BystanderBlocks(cfg, a + b) == BystanderBlocks(cfg, a) + BystanderBlocks(cfg, b)
  {
    hide Bystander;
    if a == [] {
      assert a + b == b;
    } else {
      BystandersAppend(cfg, a[1..], b);
      assert (a + b)[1..] == a[1..] + b;
    }
  }

  lemma {:induction false} DroppingFirstKeepsBystander(cfg: Config, bs: seq<Block>, name: string)
    requires name in cfg.deprecated
    ensures BystanderBlocks(cfg, WithoutFirst(bs, Title(cfg, name))) == BystanderBlocks(cfg, bs)
  {
    hide IsDuplicate, Titled, Title, OwnTitle, Bystander;
    if bs != [] { DuplicateExactly(cfg, bs[0]); }
    if bs != [] && !Titled(bs[0], Title(cfg, name)) {
      DroppingFirstKeepsBystander(cfg, bs[1..], name);
      BystandersAppend(cfg, [bs[0]], WithoutFirst(bs[1..], Title(cfg, name)));
      BystandersAppend(cfg, [bs[0]], bs[1..]);
      assert [bs[0]] + bs[1..] == bs;
    }
  }

  lemma {:induction false} DroppingDeprecatedKeepsBystander(cfg: Config, bs: seq<Block>, names: seq<string>)
    requires forall name :: name in names ==> name in cfg.deprecated
    ensures BystanderBlocks(cfg, WithoutDeprecated(cfg, bs, names)) == BystanderBlocks(cfg, bs)
    decreases |names|
  {
    hide BystanderBlocks, WithoutFirst;
    if names != [] {
      assert forall name :: name in names[1..] ==> name in names;
      DroppingFirstKeepsBystander(cfg, bs, names[0]);
      DroppingDeprecatedKeepsBystander(cfg, WithoutFirst(bs, Title(cfg, names[0])), names[1..]);
    }
  }

  lemma {:induction false} DroppingDuplicatesKeepsBystander(cfg: Config, bs: seq<Block>)
    ensures BystanderBlocks(cfg, WithoutDuplicates(cfg, bs)) == BystanderBlocks(cfg, bs)
  {
    hide IsDuplicate, Titled, OwnTitle, Bystander;
    if bs != [] {
      DuplicateExactly(cfg, bs[0]);
      DroppingDuplicatesKeepsBystander(cfg, bs[1..]);
      BystandersAppend(cfg, if IsDuplicate(cfg, bs[0]) then [] else [bs[0]], WithoutDuplicates(cfg, bs[1..]));
      assert BystanderBlocks(cfg, [bs[0]]) == if Bystander(cfg, bs[0]) then [bs[0]] else [] by { assert [bs[0]][1..] == []; }
    }
  }

  lemma {:induction false} ReplacingOwnKeepsBystander(cfg: Config, bs: seq<Block>, i: nat, b: Block)
    requires i < |bs| && !Bystander(cfg, bs[i]) && !Bystander(cfg, b)
    ensures BystanderBlocks(cfg, bs[i := b]) == BystanderBlocks(cfg, bs)
  {
    hide Bystander;
    BystandersAppend(cfg, bs[..i], [bs[i]] + bs[i + 1..]);
    BystandersAppend(cfg, bs[..i], [b] + bs[i + 1..]);
    assert bs == bs[..i] + ([bs[i]] + bs[i + 1..]) && bs[i := b] == bs[..i] + ([b] + bs[i + 1..]);
    assert ([bs[i]] + bs[i + 1..])[1..] == bs[i + 1..] && ([b] + bs[i + 1..])[1..] == bs[i + 1..];
  }

  lemma OwnTitleIsTrimmed(cfg: Config)
    ensures Trim(OwnTitle(cfg)) == OwnTitle(cfg) && IsHeader(OwnTitle(cfg))
  {
    TrimOfTrimmed(OwnTitle(cfg));
  }

  lemma BlankLineKeepsBystander(cfg: Config, b: Block)
    ensures
      var longer := Block(b.header, b.body + [""]);
      && ParseLines(longer.body) == ParseLines(b.body)
      && (IsDuplicate(cfg, longer) <==> IsDuplicate(cfg, b)) && (Bystander(cfg, longer) <==> Bystander(cfg, b))
  {
    assert (b.body + [""])[..|b.body|] == b.body;
    assert ParseProperty("") == None by { assert Trim("") == ""; }
  }

  /** A blank line at the end of the last section shows outside exactly when that section is foreign. */
  lemma SeparatingKeepsOutside(cfg: Config, f: File)
    ensures OutsideLines(cfg, Separated(f)) == OutsideLines(cfg, f) || OutsideLines(cfg, Separated(f)) == OutsideLines(cfg, f) + [""]
  {
    if f.blocks != [] {
      var n := |f.blocks| - 1;
      var b, longer := f.blocks[n], Block(f.blocks[n].header, f.blocks[n].body + [""]);
      hide Bystander;
      BlankLineKeepsBystander(cfg, b);
      assert f.blocks == f.blocks[..n] + [b];
      BystandersAppend(cfg, f.blocks[..n], [b]);
      BystandersAppend(cfg, f.blocks[..n], [longer]);
      assert [b][1..] == [] && [longer][1..] == [];
      assert BystanderBlocks(cfg, [b]) == (if Bystander(cfg, b) then [b] else []) && BystanderBlocks(cfg, [longer]) == (if Bystander(cfg, b) then [longer] else []);
      FlattenAppend(BystanderBlocks(cfg, f.blocks[..n]), BystanderBlocks(cfg, [b]));
      FlattenAppend(BystanderBlocks(cfg, f.blocks[..n]), BystanderBlocks(cfg, [longer]));
      FlattenOne(b);
      FlattenOne(longer);
    } else {
      assert FlattenBlocks([]) == [];
    }
  }

  /**
   * The frame: configuring keeps every line before the first section and in a bystander, in order; at most one
   * blank line is added at the end, when our section had to be appended.
   */
  lemma ConfigureKeepsOutsideLines(cfg: Config, f: File)
    ensures
      var before, after := OutsideLines(cfg, f), OutsideLines(cfg, Configured(cfg, f));
      after == before || (FindBlock(Cleaned(cfg, f).blocks, OwnTitle(cfg)).None? && after == before + [""])
  {
    hide Bystander, PropertyLines, ParseLines, IsDuplicate, PlusLine;
    var c := Cleaned(cfg, f);
    DroppingDeprecatedKeepsBystander(cfg, f.blocks, cfg.deprecated);
    DroppingDuplicatesKeepsBystander(cfg, WithoutDeprecated(cfg, f.blocks, cfg.deprecated));
    match FindBlock(c.blocks, OwnTitle(cfg))
    case Some(i) =>
      var own := OwnBlock(cfg, Merged(cfg, ParseLines(c.blocks[i].body)));
      OwnIsNotBystander(cfg, own);
      OwnIsNotBystander(cfg, c.blocks[i]);
      ReplacingOwnKeepsBystander(cfg, c.blocks, i, own);
    case None =>
      var s, own := Separated(c), OwnBlock(cfg, Wanted(cfg));
      SeparatingKeepsOutside(cfg, c);
      OwnIsNotBystander(cfg, own);
      BystandersAppend(cfg, s.blocks, [own]);
      assert [own][1..] == [];
      assert BystanderBlocks(cfg, [own]) == [];
      assert BystanderBlocks(cfg, s.blocks) + [] == BystanderBlocks(cfg, s.blocks);
  }

  lemma OwnIsNotBystander(cfg: Config, b: Block)
    requires Titled(b, OwnTitle(cfg)) || b.header == OwnTitle(cfg)
    ensures !Bystander(cfg, b)
  {
    OwnTitleIsTrimmed(cfg);
  }

  // ── Unconfigure ───────────────────────────────────────────────────────────────────────────────

  function Unconfigured(cfg: Config, f: File): File {
    Cleaned(cfg, f.(blocks := WithoutFirst(f.blocks, OwnTitle(cfg))))
  }

  lemma {:induction false} DroppingOwnKeepsBystander(cfg: Config, bs: seq<Block>)
    ensures BystanderBlocks(cfg, WithoutFirst(bs, OwnTitle(cfg))) == BystanderBlocks(cfg, bs)
  {
    hide IsDuplicate, Titled, OwnTitle, Bystander;
    if bs != [] { DuplicateExactly(cfg, bs[0]); }
    if bs != [] && !Titled(bs[0], OwnTitle(cfg)) {
      DroppingOwnKeepsBystander(cfg, bs[1..]);
      BystandersAppend(cfg, [bs[0]], WithoutFirst(bs[1..], OwnTitle(cfg)));
      BystandersAppend(cfg, [bs[0]], bs[1..]);
      assert [bs[0]] + bs[1..] == bs;
    }
  }

  /** Unconfiguring keeps those lines, and adds none. */
  lemma UnconfigureKeepsOutsideLines(cfg: Config, f: File)
    ensures OutsideLines(cfg, Unconfigured(cfg, f)) == OutsideLines(cfg, f)
  {
    hide BystanderBlocks, WithoutFirst, WithoutDuplicates;
    var bs := WithoutFirst(f.blocks, OwnTitle(cfg));
    DroppingOwnKeepsBystander(cfg, f.blocks);
    DroppingDeprecatedKeepsBystander(cfg, bs, cfg.deprecated);
    DroppingDuplicatesKeepsBystander(cfg, WithoutDeprecated(cfg, bs, cfg.deprecated));
  }
}
