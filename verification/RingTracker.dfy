/**
 The ring tracker as its callers see it; its own source is not part of this model. A submit
 answers "full" or a sequence number that no outstanding frame carries, each outstanding
 frame draws at most one event, and a frame not yet sent can be withdrawn.
 */
module RingTracker {
  /** A tracked CFG_COMMIT is recorded with the bytes its chunk burst carried. */
  datatype Frame = Get(zone: nat, kind: nat) | Commit(zone: nat, gen: nat, wire: seq<bv8>) | Cmd(zone: nat)

  datatype Track = Track(frame: Frame, sent: bool)

  datatype TrkEv = Done(status: nat, detail: string) | Fail(token: string)

  /** nmgr_cancel: withdraws a frame only while it is still queued. */
  function Cancel(trk: map<nat, Track>, q: nat): map<nat, Track> {
    if q in trk && !trk[q].sent then trk - {q} else trk
  }
}
