/**
 * The dead-family sidecar: one slot, shared by every process, naming the last refresh token some
 * process heard a terminal verdict on. The hash is injective, so the slot holds the token itself.
 */
module DeadFamilyMemo {
  import opened Basics
  import opened MachineCredentials
  import opened TokenRefresher

  datatype Sidecar =
    | NoSidecar
    | Garbled
    | Record(token: Option<Token>, reason: Option<string>)

  function MatchIn(s: Sidecar, token: Token): Option<string> {
    if !s.Record? || s.token != Some(token) then None
    else if IsClientIdMismatchText(Some(OrElse(s.reason, ""))) then None
    else Some(OrElse(s.reason, ""))
  }

  /** One call of `write`: the environment decides whether the directory is there and the disk accepts it. */
  datatype Verdict = Verdict(token: Token, reason: string, directoryExists: bool, diskFails: bool)

  predicate Takes(v: Verdict) {
    !IsClientIdMismatchText(Some(v.reason)) && v.directoryExists && !v.diskFails
  }

  function WriteTo(s: Sidecar, v: Verdict): Sidecar {
    if Takes(v) then Record(Some(v.token), Some(v.reason)) else s
  }

  function WriteAll(s: Sidecar, verdicts: seq<Verdict>): Sidecar {
    if verdicts == [] then s else WriteTo(WriteAll(s, verdicts[..|verdicts| - 1]), verdicts[|verdicts| - 1])
  }

  /** `at` is the last verdict that reached the disk. */
  predicate LastTaken(verdicts: seq<Verdict>, at: nat) {
    at < |verdicts| && Takes(verdicts[at]) && forall k :: at < k < |verdicts| ==> !Takes(verdicts[k])
  }

  lemma LastTakenSkips(verdicts: seq<Verdict>, at: nat)
    requires verdicts != [] && !Takes(verdicts[|verdicts| - 1])
    ensures LastTaken(verdicts, at) <==> LastTaken(verdicts[..|verdicts| - 1], at)
  {
    var n := |verdicts| - 1;
    var init := verdicts[..n];
    assert at < n ==> init[at] == verdicts[at];
    if LastTaken(init, at) {
      forall k | at < k < |verdicts| ensures !Takes(verdicts[k]) {
        assert k < n ==> init[k] == verdicts[k];
      }
    }
    if LastTaken(verdicts, at) {
      forall k | at < k < n ensures !Takes(init[k]) { assert init[k] == verdicts[k]; }
    }
  }

  /** What the slot holds after any verdicts: the last one that reached the disk, nothing if none did. */
  lemma {:induction false} SlotHoldsTheLastVerdict(verdicts: seq<Verdict>, at: nat)
    ensures LastTaken(verdicts, at) ==>
              WriteAll(NoSidecar, verdicts) == Record(Some(verdicts[at].token), Some(verdicts[at].reason))
    ensures (forall k :: !LastTaken(verdicts, k)) ==> WriteAll(NoSidecar, verdicts) == NoSidecar
  {
    if verdicts != [] {
      var n := |verdicts| - 1;
      SlotHoldsTheLastVerdict(verdicts[..n], at);
      if Takes(verdicts[n]) {
        assert LastTaken(verdicts, n);
      } else {
        forall k ensures LastTaken(verdicts, k) <==> LastTaken(verdicts[..n], k) { LastTakenSkips(verdicts, k); }
      }
    }
  }

  /**
   * Starting with no sidecar, a token matches exactly when the last verdict any process managed to
   * record was about it; a client mismatch is never recorded.
   */
  lemma MatchIsTheLastVerdict(verdicts: seq<Verdict>, token: Token)
    ensures MatchIn(WriteAll(NoSidecar, verdicts), token).Some? <==>
              exists at: nat :: LastTaken(verdicts, at) && verdicts[at].token == token
  {
    if at: nat :| LastTaken(verdicts, at) {
      SlotHoldsTheLastVerdict(verdicts, at);
      assert forall k: nat :: LastTaken(verdicts, k) ==> k == at;
    } else {
      SlotHoldsTheLastVerdict(verdicts, 0);
    }
  }

  class PersistedDeadFamilyMemo {
    var file: Sidecar

    constructor (file: Sidecar)
      ensures this.file == file
    {
      this.file := file;
    }

    function Match(token: Token): Option<string>
      reads this
    {
      MatchIn(file, token)
    }

    method Write(v: Verdict)
      modifies this
      ensures file == WriteTo(old(file), v)
    {
      if IsClientIdMismatchText(Some(v.reason)) || !v.directoryExists { return; }
      if v.diskFails { return; }
      file := Record(Some(v.token), Some(v.reason));
    }
  }
}
