/**
 * The credential document, its two schema versions and the store that keeps it.
 *
 * JSON text is abstracted: a document is a record whose optional fields may be absent, with the fields
 * this code does not know kept in `extra`. Token strings are `Token` values and instants are integer
 * milliseconds.
 */
module MachineCredentials {
  import opened Basics

  const V1: int := 1
  const V2: int := 2

  /** A token string; `Blank` is the empty string. */
  datatype Token = Blank | Tok(id: nat)

  datatype FamilyName = Agent | Plugin | Legacy | Other(name: string)

  datatype Family = Family(
    accessToken: Option<Token>,
    refreshToken: Option<Token>,
    expiresAt: Option<int>,
    clientId: Option<string>,
    scope: Option<string>,
    extra: map<string, string>)

  type Families = map<FamilyName, Family>

  datatype Document = Document(
    version: Option<int>,
    accessToken: Option<Token>,
    refreshToken: Option<Token>,
    expiresAt: Option<int>,
    serverTarget: Option<string>,
    subject: Option<string>,
    families: Option<Families>,
    extra: map<string, string>)

  const EMPTY := Document(None, None, None, None, None, None, None, map[])

  /** What reading the credential file finds. */
  datatype StoreState = Missing | Unreadable | Readable(document: Document)

  datatype Triple = Triple(accessToken: Option<Token>, refreshToken: Option<Token>, expiresAt: Option<int>)

  const NO_TOKENS := Triple(None, None, None)

  function TopLevel(d: Document): Triple {
    Triple(d.accessToken, d.refreshToken, d.expiresAt)
  }

  function Tokens(f: Family): Triple {
    Triple(f.accessToken, f.refreshToken, f.expiresAt)
  }

  /** A v1 credential seen as a family: its mint client and scope are unknown. */
  function LegacyFamily(t: Triple): Family {
    Family(t.accessToken, t.refreshToken, t.expiresAt, None, None, map[])
  }

  /** The version `write` persists: the document's own, but never below 2 once it has families. */
  function DocumentSchemaVersion(d: Document): int {
    match d.version
    case Some(v) => if d.families.Some? && v < V2 then V2 else v
    case None => if d.families.Some? then V2 else V1
  }

  function PluginPlane(fs: Families): Option<Family> {
    if Plugin in fs then Some(fs[Plugin]) else if Legacy in fs then Some(fs[Legacy]) else None
  }

  function ApplyV1CompatMirror(d: Document): Document {
    if d.families.None? then d
    else
      var t := match PluginPlane(d.families.value) case Some(f) => Tokens(f) case None => NO_TOKENS;
      d.(accessToken := t.accessToken, refreshToken := t.refreshToken, expiresAt := t.expiresAt)
  }

  function AdoptToV2(d: Document): Document {
    if d.families.Some? then ApplyV1CompatMirror(d.(version := Some(DocumentSchemaVersion(d))))
    else
      var families: Families := if TopLevel(d) != NO_TOKENS then map[Legacy := LegacyFamily(TopLevel(d))] else map[];
      ApplyV1CompatMirror(
        d.(version := Some(V2), accessToken := None, refreshToken := None, expiresAt := None, families := Some(families)))
  }

  function EffectiveFamilies(d: Document): Families {
    if d.families.Some? then d.families.value
    else if TopLevel(d) == NO_TOKENS then map[]
    else map[Legacy := LegacyFamily(TopLevel(d))]
  }

  // ── The store's operations on documents ───────────────────────────────────────────────────────

  /** What `write` puts on disk. */
  function Persisted(d: Document): Document {
    ApplyV1CompatMirror(d.(version := Some(DocumentSchemaVersion(d))))
  }

  function Current(s: StoreState): Document {
    if s.Readable? then s.document else EMPTY
  }

  /** Which family a rotation lands in. */
  function RotationTarget(d: Document): FamilyName {
    if Plugin in EffectiveFamilies(d) then Plugin else Legacy
  }

  function Rotated(d: Document, t: Triple): Document {
    var adopted := AdoptToV2(d);
    var families := adopted.families.value;
    var target := RotationTarget(d);
    var before := if target in families then families[target] else LegacyFamily(NO_TOKENS);
    ApplyV1CompatMirror(adopted.(families := Some(families[target :=
      before.(accessToken := t.accessToken, refreshToken := t.refreshToken, expiresAt := t.expiresAt)])))
  }

  /** Identity fields a family write may set. */
  datatype Stamp = Stamp(serverTarget: Option<string>, subject: Option<string>)

  const NO_STAMP := Stamp(None, None)

  function WithFamily(d: Document, name: FamilyName, f: Family, stamp: Stamp): Document {
    var adopted := AdoptToV2(d);
    ApplyV1CompatMirror(adopted.(
      serverTarget := if stamp.serverTarget.Some? then stamp.serverTarget else adopted.serverTarget,
      subject := if stamp.subject.Some? then stamp.subject else adopted.subject,
      families := Some(adopted.families.value[name := f])))
  }

  datatype WriteResult = Written(document: Document) | FailedClosed

  /** Background writes refuse an unreadable store; an explicit login may replace it. */
  function WriteFamily(s: StoreState, name: FamilyName, f: Family, stamp: Stamp, replaceUnreadable: bool): (StoreState, WriteResult) {
    if s.Unreadable? && !replaceUnreadable then (s, FailedClosed)
    else
      var d := WithFamily(Current(s), name, f, stamp);
      (Readable(Persisted(d)), Written(d))
  }

  function Rotate(s: StoreState, t: Triple): (StoreState, WriteResult) {
    if s.Unreadable? then (s, FailedClosed)
    else
      var d := Rotated(Current(s), t);
      (Readable(Persisted(d)), Written(d))
  }

  // ── Schema properties ─────────────────────────────────────────────────────────────────────────

  /** The top-level triple mirrors the plugin plane, and families never sit under a version below 2. */
  predicate WellMirrored(d: Document) {
    d.families.Some? ==>
      && d.version.Some? && d.version.value >= V2
      && TopLevel(d) ==
           if Plugin in d.families.value then Tokens(d.families.value[Plugin])
           else if Legacy in d.families.value then Tokens(d.families.value[Legacy])
           else NO_TOKENS
  }

  predicate StoreOk(s: StoreState) {
    s.Readable? ==> WellMirrored(s.document) && s.document.version.Some?
  }

  /**
   * Adoption loses nothing: the same families, identity and unknown fields, and doing it twice is doing it once. A
   * document without families has one, of its top-level tokens, if it has any of them.
   */
  lemma AdoptionIsFaithful(d: Document)
    ensures EffectiveFamilies(AdoptToV2(d)) == EffectiveFamilies(d)
    ensures AdoptToV2(AdoptToV2(d)) == AdoptToV2(d)
    ensures AdoptToV2(d).families.Some? && WellMirrored(AdoptToV2(d))
    ensures
      var a := AdoptToV2(d);
      a.subject == d.subject && a.serverTarget == d.serverTarget && a.extra == d.extra
    ensures d.families.Some? ==> EffectiveFamilies(d) == d.families.value
    ensures d.families.None? ==>
              EffectiveFamilies(d) ==
                if d.accessToken.None? && d.refreshToken.None? && d.expiresAt.None? then map[]
                else map[Legacy := Family(d.accessToken, d.refreshToken, d.expiresAt, None, None, map[])]
  {
  }

  /** What a family write changes, and everything it does not. */
  lemma FamilyWriteFrame(d: Document, name: FamilyName, f: Family, stamp: Stamp)
    ensures
      var d' := Persisted(WithFamily(d, name, f, stamp));
      && d' == WithFamily(d, name, f, stamp)
      && WellMirrored(d')
      && EffectiveFamilies(d') == EffectiveFamilies(d)[name := f]
      && d'.extra == d.extra
      && d'.subject == (if stamp.subject.Some? then stamp.subject else d.subject)
      && d'.serverTarget == (if stamp.serverTarget.Some? then stamp.serverTarget else d.serverTarget)
      && d'.version == Some(if d.families.Some? && d.version.Some? then Max(d.version.value, 2) else 2)
  {
  }

  /** A rotation moves the tokens of one plugin-plane family; its client, scope and unknown fields stay. */
  lemma RotationFrame(d: Document, t: Triple)
    ensures
      var d', n := Persisted(Rotated(d, t)), RotationTarget(d);
      && d' == Rotated(d, t)
      && WellMirrored(d') && TopLevel(d') == t
      && n in EffectiveFamilies(d') && Tokens(EffectiveFamilies(d')[n]) == t
      && EffectiveFamilies(d') - {n} == EffectiveFamilies(d) - {n}
      && (n in EffectiveFamilies(d) ==>
            EffectiveFamilies(d')[n] == EffectiveFamilies(d)[n].(accessToken := t.accessToken, refreshToken := t.refreshToken, expiresAt := t.expiresAt))
      && d'.extra == d.extra && d'.subject == d.subject && d'.serverTarget == d.serverTarget
  {
  }

  datatype StoreOp =
    | DoWrite(document: Document)
    | DoRotate(tokens: Triple)
    | DoWriteFamily(name: FamilyName, family: Family, stamp: Stamp, replaceUnreadable: bool)
    | DoDelete

  function ApplyOp(s: StoreState, op: StoreOp): StoreState {
    match op
    case DoWrite(d) => Readable(Persisted(d))
    case DoRotate(t) => Rotate(s, t).0
    case DoWriteFamily(name, f, stamp, replace) => WriteFamily(s, name, f, stamp, replace).0
    case DoDelete => Missing
  }

  function ApplyOps(s: StoreState, ops: seq<StoreOp>): StoreState {
    if ops == [] then s else ApplyOp(ApplyOps(s, ops[..|ops| - 1]), ops[|ops| - 1])
  }

  /**
   * The schema invariant over every sequence of operations, whatever documents callers write and
   * whatever an older writer left behind: the store is as it was found, or it is well mirrored.
   */
  lemma {:induction false} SchemaInvariant(s: StoreState, ops: seq<StoreOp>)
    ensures ApplyOps(s, ops) == s || StoreOk(ApplyOps(s, ops))
    ensures StoreOk(s) ==> StoreOk(ApplyOps(s, ops))
  {
    if ops != [] {
      SchemaInvariant(s, ops[..|ops| - 1]);
    }
  }

  /** The store object: one credential file. */
  class MachineCredentialStore {
    var file: StoreState

    constructor (file: StoreState)
      ensures this.file == file
    {
      this.file := file;
    }

    function ReadState(): StoreState
      reads this
    {
      file
    }

    /** Whatever was on file: the document is now stored well mirrored, with the families, identity and unknown fields it came with. */
    method Write(d: Document)
      modifies this
      ensures file == ApplyOp(old(file), DoWrite(d))
      ensures StoreOk(file) && file.Readable? && EffectiveFamilies(file.document) == EffectiveFamilies(d)
      ensures file.document.subject == d.subject && file.document.serverTarget == d.serverTarget && file.document.extra == d.extra
    {
      file := Readable(Persisted(d));
    }

    method Rotate(t: Triple) returns (r: WriteResult)
      modifies this
      ensures file == ApplyOp(old(file), DoRotate(t))
      ensures r.FailedClosed? <==> old(file).Unreadable?
      ensures r.Written? ==> file == Readable(r.document) && TopLevel(r.document) == t
    {
      if file.Unreadable? { return FailedClosed; }
      var current := if file.Readable? then file.document else EMPTY;
      var rotated := Rotated(current, t);
      Write(rotated);
      RotationFrame(current, t);
      return Written(rotated);
    }

    method WriteFamily(name: FamilyName, f: Family, stamp: Stamp, replaceUnreadable: bool) returns (r: WriteResult)
      modifies this
      ensures file == ApplyOp(old(file), DoWriteFamily(name, f, stamp, replaceUnreadable))
      ensures r.FailedClosed? <==> old(file).Unreadable? && !replaceUnreadable
      ensures r.FailedClosed? ==> file == old(file)
      ensures r.Written? ==> file == Readable(r.document) && name in EffectiveFamilies(r.document) && EffectiveFamilies(r.document)[name] == f
    {
      var state := ReadState();
      if state.Unreadable? && !replaceUnreadable { return FailedClosed; }
      var current := if state.Readable? then state.document else EMPTY;
      var d := WithFamily(current, name, f, stamp);
      Write(d);
      FamilyWriteFrame(current, name, f, stamp);
      return Written(d);
    }

    method Delete()
      modifies this
      ensures file.Missing?
    {
      file := Missing;
    }
  }
}
