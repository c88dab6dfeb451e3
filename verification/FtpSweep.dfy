/**
 A read of the local file that is under way when an upload ends: its result is still on its way through the loopback
 while both devices are reset, and each sweep takes only one of them from the dispatcher's list.
 */
module FtpSweep {
  import opened Wrappers
  import opened Bytes
  import opened FtpModel
  import opened FtpInvariant
  import opened FtpJoin
  import opened Subject

  /** A result that arrives for an observer finds it only as long as it is in the list. */
  predicate Listed<T(==)>(list: seq<T>, x: T) {
    x in list
  }

  lemma {:induction false} OnlyMembers<T>(s: seq<T>, marked: set<T>, k: nat, x: T)
    requires x !in s
    ensures x !in WithoutFirst(s, marked, k)
  {
    if s != [] {
      OnlyMembers(s[1..], marked, if s[0] in marked && k > 0 then k - 1 else k, x);
    }
  }

  lemma {:induction false} StaysIff<T>(s: seq<T>, marked: set<T>, p: nat, k: nat)
    requires Distinct(s) && p < |s| && s[p] in marked
    ensures s[p] in WithoutFirst(s, marked, k) <==> k <= MarkedCount(s[..p], marked)
    decreases |s|
  {
    if p == 0 {
      OnlyMembers(s[1..], marked, if k > 0 then k - 1 else 0, s[0]);
    } else {
      assert s[..p][1..] == s[1..][..p - 1];
      StaysIff(s[1..], marked, p - 1, if s[0] in marked && k > 0 then k - 1 else k);
    }
  }

  /** On a list without duplicates a marked observer survives k sweeps if and only if that many are marked before it. */
  lemma SurvivesSweepsIff<T>(s: seq<T>, marked: set<T>, p: nat, k: nat)
    requires Distinct(s) && p < |s| && s[p] in marked
    ensures Listed(Sweeps(s, marked, k), s[p]) <==> k <= MarkedCount(s[..p], marked)
  {
    SweepsDeleteFirst(s, marked, k);
    StaysIff(s, marked, p, k);
  }

  // -------- The upload's last read --------

  /** The result of a read reaches the engine only if the dispatcher still lists the device it is for. */
  function Deliver<T(==)>(list: seq<T>, file: T, s: Ftp, b: seq<byte>, more: bool): Ftp {
    if Listed(list, file) then (if b == [] then OnFileDisconnect(s) else OnFileRead(s, b, more)) else s
  }

  /** Without a data channel and a local file whatever a read brings fails. */
  lemma LateReadFaults(s: Ftp, b: seq<byte>, more: bool)
    requires s.xfer.dataChannel.None? && s.xfer.fileDevice.None?
    ensures OnFileRead(s, b, more).fault && OnFileDisconnect(s).fault
  {
  }

  /** Both devices of the transfer have been reset: its data channel closed, or it was broken off. */
  predicate Resets(s: Ftp, e: Event) {
    InTransfer(s) && (e.DataClosed? || NextStage(StageIn(s.ctl.state), e) == Broken) && Possible(s, e)
  }

  lemma ResetsBoth(s: Ftp, e: Event)
    requires Sound(s) && Resets(s, e) && s.xfer.dataChannel.Some?
    ensures var r := Step(s, e);
            !r.fault && r.xfer.dataChannel.None? && r.xfer.fileDevice.None?
  {
    if e.DataClosed? {
      SoundClosed(s);
      var s1 := ResetDevices(NotifyEnd(s, s.ctl.q[0]));
      if s.ctl.state == Final {
        PopsFront(s1);
      }
    } else {
      BrokenOff(s, e.msg);
      assert s.ctl.state == Final ==> NextStage(Complete, e) == Complete;
    }
  }

  /**
   An upload's data channel and local file are the two marked devices, in that order, in the dispatcher's list. When
   both are reset, the sweep that follows removes the data channel only; so a result of the pending read that arrives
   after k sweeps fails if and only if k < 2: it must not come before the sweep of the next event.
   */
  lemma LateReadFaultsIff<T>(list: seq<T>, channel: nat, file: nat, k: nat, s: Ftp, e: Event, b: seq<byte>, more: bool)
    requires Distinct(list) && channel < file < |list| && Sound(s) && Resets(s, e) && s.xfer.dataChannel.Some?
    ensures Deliver(Sweeps(list, {list[channel], list[file]}, k), list[file], Step(s, e), b, more).fault <==> k < 2
  {
    var marked := {list[channel], list[file]};
    ResetsBoth(s, e);
    LateReadFaults(Step(s, e), b, more);
    SurvivesSweepsIff(list, marked, file, k);
    OneMarked(list[..file], marked, channel);
  }

  lemma {:induction false} OneMarked<T>(s: seq<T>, marked: set<T>, p: nat)
    requires Distinct(s) && p < |s| && forall i :: 0 <= i < |s| ==> (s[i] in marked <==> i == p)
    ensures MarkedCount(s, marked) == 1
  {
    if p == 0 {
      NoneOf(s[1..], marked);
    } else {
      OneMarked(s[1..], marked, p - 1);
    }
  }

  lemma {:induction false} NoneOf<T>(s: seq<T>, marked: set<T>)
    requires forall i :: 0 <= i < |s| ==> s[i] !in marked
    ensures MarkedCount(s, marked) == 0
  {
    if s != [] {
      NoneOf(s[1..], marked);
    }
  }
}
