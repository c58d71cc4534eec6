/**
 * The credential store on its disk: what `readState` finds at every moment of a write, a rotation, a family
 * write and a deletion, when any call may fail and the process may die anywhere.
 */
module CredentialFile {
  import opened Basics
  import opened AtomicFile
  import opened MachineCredentials

  /** Serialisation and the at-rest codec. Encoding may throw; decoding maps any bytes to what `readState` makes of them. */
  datatype Codec = Codec(encode: Document -> Option<Bytes>, decode: Bytes -> StoreState)

  /** Encoded documents are not empty and decode to themselves. */
  ghost predicate Invertible(codec: Codec) {
    forall d :: codec.encode(d).Some? ==> codec.encode(d).value != [] && codec.decode(codec.encode(d).value) == Readable(d)
  }

  /** A proper part of an encoded document, cut off at the end, does not decode. */
  ghost predicate SelfDelimiting(codec: Codec) {
    forall d, n :: codec.encode(d).Some? && 0 < n < |codec.encode(d).value| ==> codec.decode(codec.encode(d).value[..n]).Unreadable?
  }

  /** `readState`: no file and an empty file are a missing store. */
  function ReadState(codec: Codec, file: Option<Bytes>): StoreState {
    if file.None? || file.value == [] then Missing else codec.decode(file.value)
  }

  datatype SaveResult = Saved(document: Document) | Refused | Threw

  /** The process's store: one path of one disk. */
  class CredentialStore {
    const disk: Disk
    const codec: Codec
    const path: string

    constructor (disk: Disk, codec: Codec, path: string)
      requires Invertible(codec) && SelfDelimiting(codec)
      ensures Valid() && this.disk == disk && this.codec == codec && this.path == path
    {
      this.disk, this.codec, this.path := disk, codec, path;
    }

    ghost predicate Valid() {
      Invertible(codec) && SelfDelimiting(codec)
    }

    function State(): StoreState
      reads disk
    {
      ReadState(codec, At(disk.files, path))
    }

    /** At every moment since the disk had `from` moments behind it, `readState` finds one of two states. */
    ghost predicate OnlyEver(from: nat, before: StoreState, after: StoreState)
      reads disk
    {
      forall i :: from <= i < |disk.record| ==> ReadState(codec, At(disk.record[i], path)) in {before, after}
    }

    /**
     * Encode, then replace the file. An error leaves the store as it was at every moment. A write of the whole
     * document is never seen half done; one the disk cut short without an error leaves a torn store.
     */
    method Write(d: Document, temp: string) returns (ok: bool, ghost whole: bool)
      requires Valid() && temp != path
      modifies disk
      ensures disk.completeWrites && ok ==> whole
      ensures old(disk.record) <= disk.record
      ensures !ok ==> State() == old(State()) && OnlyEver(|old(disk.record)|, old(State()), old(State()))
      ensures ok && whole ==>
                && State() == ApplyOp(old(State()), DoWrite(d))
                && OnlyEver(|old(disk.record)|, old(State()), ApplyOp(old(State()), DoWrite(d)))
      ensures ok && !whole ==> State().Missing? || State().Unreadable?
    {
      var document := Persisted(d);
      var bytes := codec.encode(document);
      if bytes.None? { return false, false; }
      ghost var written;
      ok, written := WriteFileAtomic(disk, path, temp, bytes.value);
      whole := written == |bytes.value|;
      assert whole ==> bytes.value[..written] == bytes.value;
    }

    /**
     * Move the tokens of the plugin-plane family. It fails closed exactly on an unreadable store; then, and when
     * the codec or the disk throws, the store stays as it was at every moment.
     */
    method Rotate(t: Triple, temp: string) returns (r: SaveResult, ghost whole: bool)
      requires Valid() && temp != path
      modifies disk
      ensures disk.completeWrites && r.Saved? ==> whole
      ensures r.Refused? <==> old(State()).Unreadable?
      ensures !r.Saved? ==> State() == old(State()) && OnlyEver(|old(disk.record)|, old(State()), old(State()))
      ensures r.Saved? && whole ==>
                && State() == ApplyOp(old(State()), DoRotate(t)) == Readable(r.document) && TopLevel(r.document) == t
                && OnlyEver(|old(disk.record)|, old(State()), State())
      ensures r.Saved? && !whole ==> State().Missing? || State().Unreadable?
    {
      var state := State();
      if state.Unreadable? { return Refused, false; }
      var rotated := Rotated(Current(state), t);
      RotationFrame(Current(state), t);
      hide AdoptToV2, EffectiveFamilies, Rotated, Persisted;
      var ok;
      ok, whole := Write(rotated, temp);
      r := if ok then Saved(rotated) else Threw;
    }

    /** Store one family. It fails closed exactly on an unreadable store it may not replace. */
    method WriteFamily(name: FamilyName, f: Family, stamp: Stamp, replaceUnreadable: bool, temp: string) returns (r: SaveResult, ghost whole: bool)
      requires Valid() && temp != path
      modifies disk
      ensures disk.completeWrites && r.Saved? ==> whole
      ensures r.Refused? <==> old(State()).Unreadable? && !replaceUnreadable
      ensures !r.Saved? ==> State() == old(State()) && OnlyEver(|old(disk.record)|, old(State()), old(State()))
      ensures r.Saved? && whole ==>
                && State() == ApplyOp(old(State()), DoWriteFamily(name, f, stamp, replaceUnreadable)) == Readable(r.document)
                && name in EffectiveFamilies(r.document) && EffectiveFamilies(r.document)[name] == f
                && OnlyEver(|old(disk.record)|, old(State()), State())
      ensures r.Saved? && !whole ==> State().Missing? || State().Unreadable?
    {
      var state := State();
      if state.Unreadable? && !replaceUnreadable { return Refused, false; }
      var document := WithFamily(Current(state), name, f, stamp);
      FamilyWriteFrame(Current(state), name, f, stamp);
      hide AdoptToV2, WithFamily, Persisted;
      var ok;
      ok, whole := Write(document, temp);
      r := if ok then Saved(document) else Threw;
    }

    /** Remove the file if there is one; an error leaves it. */
    method Delete() returns (ok: bool)
      requires Valid()
      modifies disk
      ensures ok ==> State() == ApplyOp(old(State()), DoDelete)
      ensures !ok ==> State() == old(State())
      ensures OnlyEver(|old(disk.record)|, old(State()), Missing)
      ensures forall other :: other != path ==> At(disk.files, other) == At(old(disk.files), other)
    {
      if path !in disk.files { return true; }
      ok := disk.Remove(path);
    }
  }

  /**
   * Why the write has to be complete: a call the disk cut short without an error has already replaced the old
   * document by what arrived, and `readState` finds neither.
   */
  lemma ShortWriteTearsTheStore(codec: Codec, d: Document, before: Files, path: string, written: nat)
    requires Invertible(codec) && SelfDelimiting(codec) && codec.encode(d).Some? && written < |codec.encode(d).value|
    ensures
      var after := before[path := codec.encode(d).value[..written]];
      var found := ReadState(codec, At(after, path));
      if written == 0 then found.Missing? else found.Unreadable?
  {
  }
}
