/**
 The ACK window of a v2 session: what it bounds, when it admits a bundle, and when it never will again.
 */
module AudioWindow {
  import opened Optional
  import opened Bytes
  import opened AudioTransport
  import opened AudioPipeline
  import opened AudioPipelineSafety

  /** One past the last notified frame: the largest number a host has reason to acknowledge. */
  function Reach(s: State): uint32 {
    if s.tx.Exited? && s.tx.delivered then s.tx.endSeq
    else if s.bundles == [] || s.bundles[|s.bundles| - 1] == [] then 0
    else AckOf(s.bundles[|s.bundles| - 1])
  }

  /** The link still serves this recording: no reconnect or version change since it began. */
  predicate Bound(config: Config, s: State) {
    s.link.session == config.session
  }

  ghost predicate WindowInv(config: Config, s: State) {
    && (Bound(config, s) ==> s.link.version == config.version && s.link.acked <= Reach(s))
    && (Bound(config, s) && config.version == V2 && !s.tx.Exited? ==> Reach(s) <= s.link.acked + config.maxInflight)
  }

  // ---- numbers of notified frames ----

  lemma {:induction false} FlatGrows(bundles: seq<seq<Packet>>, i: nat, j: nat)
    requires i <= j <= |bundles|
    ensures |Flat(bundles[..i])| <= |Flat(bundles[..j])|
  {
    if i < j {
      FlatGrows(bundles, i, j - 1);
      assert bundles[..j][..j - 1] == bundles[..j - 1];
    }
  }

  /** No later bundle holds an earlier capture. */
  lemma {:induction false} BundlesAscend(bundles: seq<seq<Packet>>, bound: nat, i: nat, k: nat, j: nat, m: nat)
    requires Captures(Flat(bundles), bound)
    requires i <= j < |bundles| && k < |bundles[i]| && m < |bundles[j]|
    requires i == j ==> k <= m
    ensures bundles[i][k].seqNo <= bundles[j][m].seqNo < bound
  {
    FlatInBundle(bundles, i, k);
    FlatInBundle(bundles, j, m);
    var p, q := |Flat(bundles[..i])| + k, |Flat(bundles[..j])| + m;
    if i < j {
      FlatGrows(bundles, i + 1, j);
      assert bundles[..i + 1][..i] == bundles[..i];
      assert p < q;
    }
    hide Flat, IsCapture;
    assert Flat(bundles)[p].seqNo <= Flat(bundles)[q].seqNo;
  }

  lemma {:induction false} BundlesAreNonempty(config: Config, s: State, i: nat)
    requires Inv(config, s) && i < |s.bundles|
    ensures s.bundles[i] != []
  {
    hide QueueInv, Conserved;
    assert s.bundles[i] in s.bundles;
  }

  /** A bundle's acknowledgement never passes the reach, nor the number of captured frames. */
  lemma {:induction false} AckWithinReach(config: Config, s: State, i: nat)
    requires Inv(config, s) && i < |s.bundles|
    ensures s.bundles[i] != []
    ensures AckOf(s.bundles[i]) == s.bundles[i][|s.bundles[i]| - 1].seqNo + 1 <= s.nextSeq
    ensures AckOf(s.bundles[i]) <= Reach(s) <= s.nextSeq
  {
    var last := |s.bundles| - 1;
    BundlesAreNonempty(config, s, i);
    BundlesAreNonempty(config, s, last);
    hide TxInv, QueueInv;
    NotifiedAreCaptures(s);
    hide Conserved, Captures;
    BundlesAscend(s.bundles, s.nextSeq, i, |s.bundles[i]| - 1, last, |s.bundles[last]| - 1);
  }

  lemma {:induction false} ReachAtMostCaptured(config: Config, s: State)
    requires Inv(config, s)
    ensures Reach(s) <= s.nextSeq
  {
    if s.bundles != [] {
      AckWithinReach(config, s, |s.bundles| - 1);
    }
  }

  // ---- every step keeps the window ----

  lemma {:induction false} AckKeepsWindow(config: Config, s: State, session: uint32, nextSeq: uint32)
    requires Inv(config, s) && WindowInv(config, s) && Enabled(config, s, AckArrives(session, nextSeq))
    ensures WindowInv(config, Step(config, s, AckArrives(session, nextSeq)))
  {
    if session == config.session {
      GenuineWithinReach(config, s, nextSeq);
      hide Inv, GenuineAck;
    }
  }

  lemma {:induction false} GenuineWithinReach(config: Config, s: State, nextSeq: uint32)
    requires Inv(config, s) && GenuineAck(s, nextSeq)
    ensures nextSeq <= Reach(s)
  {
    if i :| 0 <= i < |s.bundles| && s.bundles[i] != [] && nextSeq == AckOf(s.bundles[i]) {
      AckWithinReach(config, s, i);
    }
  }

  lemma {:induction false} SendKeepsWindow(config: Config, s: State, radio: Radio)
    requires Inv(config, s) && WindowInv(config, s) && s.tx.Sending?
    ensures |s.tx.bundle| < 0x100
    ensures WindowInv(config, AfterTrySend(config, s, radio))
  {
    hide SendBundle, QueueInv, Conserved;
    TrySendKeeps(config, s, radio);
    SentInWindow(config, s, radio);
    hide Inv, TxInv;
    if SendBundle(config, s.link, radio, s.tx.bundle).Some? {
      hide WindowInv;
      DeliveredKeepsWindow(config, s, AfterTrySend(config, s, radio));
    }
  }

  lemma {:induction false} DeliveredKeepsWindow(config: Config, s: State, t: State)
    requires Inv(config, t) && WindowInv(config, s) && s.tx.Sending? && s.tx.bundle != []
    requires t.bundles == s.bundles + [s.tx.bundle] && t.link == s.link && !t.tx.Exited?
    requires config.version == V2 && s.link.version == V2 ==> AckOf(s.tx.bundle) <= s.link.acked + config.maxInflight
    ensures WindowInv(config, t)
  {
    hide Inv;
    LaterBundle(config, s, t);
  }

  /** Under v2 a bundle goes out on a bound link only through the open window. */
  lemma {:induction false} SentInWindow(config: Config, s: State, radio: Radio)
    requires config.Valid() && s.tx.Sending? && 0 < |s.tx.bundle| < 0x100
    ensures config.version == V2 && s.link.version == V2 && SendBundle(config, s.link, radio, s.tx.bundle).Some?
      ==> AckOf(s.tx.bundle) <= s.link.acked + config.maxInflight
  {
    hide Encode;
  }

  lemma {:induction false} LaterBundle(config: Config, s: State, t: State)
    requires Inv(config, t) && s.tx.Sending? && s.tx.bundle != [] && t.bundles == s.bundles + [s.tx.bundle]
    requires !t.tx.Exited?
    ensures Reach(s) <= Reach(t) == AckOf(s.tx.bundle)
  {
    hide Inv;
    if s.bundles != [] {
      AckWithinReach(config, t, |s.bundles| - 1);
      assert t.bundles[|s.bundles| - 1] == s.bundles[|s.bundles| - 1];
    }
  }

  lemma {:induction false} EndKeepsWindow(config: Config, s: State, radio: Radio)
    requires Inv(config, s) && WindowInv(config, s) && s.tx.Ending?
    ensures WindowInv(config, AfterTrySendEnd(config, s, radio))
  {
    ReachAtMostCaptured(config, s);
    hide SendAudio, Conserved, TxInv;
  }

  lemma {:induction false} StepKeepsWindow(config: Config, s: State, e: Event)
    requires Inv(config, s) && WindowInv(config, s) && Enabled(config, s, e)
    ensures WindowInv(config, Step(config, s, e))
  {
    match e
    case TrySend(radio) => SendKeepsWindow(config, s, radio);
    case TrySendEnd(radio) => EndKeepsWindow(config, s, radio);
    case AckArrives(session, nextSeq) => AckKeepsWindow(config, s, session, nextSeq);
    case _ => hide Inv;
  }

  lemma {:induction false} RunKeepsWindow(config: Config, s: State, events: seq<Event>)
    requires Inv(config, s) && WindowInv(config, s) && IsRun(config, s, events)
    ensures Inv(config, Run(config, s, events)) && WindowInv(config, Run(config, s, events))
    decreases events
  {
    if events != [] {
      StepKeeps(config, s, events[0]);
      StepKeepsWindow(config, s, events[0]);
      hide Step, Enabled, Inv, WindowInv;
      RunKeepsWindow(config, Step(config, s, events[0]), events[1..]);
    }
  }

  // ---- what the window bounds ----

  /** Notified frames not covered by the cumulative acknowledgement. */
  function Unacked(notified: seq<Packet>, acked: nat): nat {
    if notified == [] then 0
    else
      var last := |notified| - 1;
      Unacked(notified[..last], acked) + if notified[last].seqNo >= acked then 1 else 0
  }

  lemma {:induction false} UnackedAtMost(notified: seq<Packet>, acked: nat, bound: nat)
    requires Captures(notified, bound)
    ensures Unacked(notified, acked) <= if acked <= bound then bound - acked else 0
  {
    if notified != [] {
      UnackedAtMost(notified[..|notified| - 1], acked, notified[|notified| - 1].seqNo);
    }
  }

  /** Before END is out, the reach is one past the last notified frame. */
  lemma {:induction false} ReachIsLast(config: Config, s: State)
    requires Inv(config, s) && !(s.tx.Exited? && s.tx.delivered)
    ensures var notified := Flat(s.bundles);
      Reach(s) == if notified == [] then 0 else notified[|notified| - 1].seqNo + 1
  {
    if s.bundles != [] {
      var last := |s.bundles| - 1;
      AckWithinReach(config, s, last);
      FlatInBundle(s.bundles, last, |s.bundles[last]| - 1);
      assert Flat(s.bundles) == Flat(s.bundles[..last]) + s.bundles[last];
      hide Inv, Flat;
    }
  }

  lemma {:induction false} CapturesBelowReach(config: Config, s: State)
    requires Inv(config, s) && !(s.tx.Exited? && s.tx.delivered)
    ensures Captures(Flat(s.bundles), Reach(s))
  {
    NotifiedAreCaptures(s);
    ReachIsLast(config, s);
    hide Inv, Flat, Reach;
  }

  /** While a v2 recording transmits, the host is never ahead of what was notified and never more than
      two bundles of notified frames are unacknowledged. */
  lemma {:induction false} InflightIsBounded(config: Config, events: seq<Event>)
    requires config.Valid() && config.version == V2 && IsRun(config, Initial(config), events)
    ensures var s := Run(config, Initial(config), events);
      Bound(config, s) && !s.tx.Exited? ==>
        && s.link.acked <= Reach(s) <= s.nextSeq
        && Unacked(Flat(s.bundles), s.link.acked) <= 2 * config.bundleSize
  {
    InitiallyInv(config);
    RunKeepsWindow(config, Initial(config), events);
    var s := Run(config, Initial(config), events);
    hide Run, IsRun;
    if Bound(config, s) && !s.tx.Exited? {
      CapturesBelowReach(config, s);
      ReachAtMostCaptured(config, s);
      UnackedAtMost(Flat(s.bundles), s.link.acked, Reach(s));
    }
  }

  predicate NoReset(events: seq<Event>) {
    forall i :: 0 <= i < |events| ==> !events[i].LinkReset?
  }

  /** Only an ACK of the bound session moves the acknowledgement, and only upwards. */
  lemma {:induction false} AckedNeverFalls(config: Config, s: State, events: seq<Event>)
    requires IsRun(config, s, events) && NoReset(events)
    ensures var t := Run(config, s, events);
      && t.link.session == s.link.session && t.link.version == s.link.version
      && t.link.acked >= s.link.acked
      && ((forall i :: 0 <= i < |events| && events[i].AckArrives? ==> events[i].session != s.link.session)
          ==> t.link == s.link)
    decreases events
  {
    if events != [] {
      var next := Step(config, s, events[0]);
      assert next.link == s.link || (events[0].AckArrives? && events[0].session == s.link.session
                                     && next.link.acked >= s.link.acked) by {
        hide SendBundle, SendAudio;
      }
      assert next.link.session == s.link.session && next.link.version == s.link.version by {
        hide SendBundle, SendAudio;
      }
      hide Step, Enabled;
      assert NoReset(events[1..]);
      AckedNeverFalls(config, next, events[1..]);
    }
  }

  // ---- when the window admits a bundle ----

  /** With everything notified acknowledged, a contiguous bundle is admitted exactly when the frames
      dropped since, together with its own, fit the window. */
  lemma {:induction false} AdmittedIff(config: Config, s: State)
    requires Inv(config, s) && config.version == V2 && s.tx.Sending? && Contiguous(s.tx.bundle)
    requires s.link == Link(V2, config.session, Reach(s))
    ensures s.tx.bundle != [] && Reach(s) <= s.tx.bundle[0].seqNo
    ensures WindowOpen(config, s.link, AckOf(s.tx.bundle))
      <==> (s.tx.bundle[0].seqNo - Reach(s)) + |s.tx.bundle| <= config.maxInflight
  {
    PendingAfterReach(config, s);
    NoWrap(config, s);
    var bundle := s.tx.bundle;
    assert bundle[|bundle| - 1].seqNo == bundle[0].seqNo + |bundle| - 1;
    assert Pending(s)[0] == bundle[0] && Pending(s)[|bundle| - 1] == bundle[|bundle| - 1];
    hide Inv, Contiguous, Pending, Captures, Reach;
  }

  function Pending(s: State): seq<Packet> {
    Held(s.tx) + Waiting(s.queue)
  }

  /** What is still to be sent was captured after what has been notified, in capture order. */
  lemma {:induction false} PendingAfterReach(config: Config, s: State)
    requires Inv(config, s) && !(s.tx.Exited? && s.tx.delivered)
    ensures forall i :: 0 <= i < |Pending(s)| ==> Reach(s) <= Pending(s)[i].seqNo < s.nextSeq
    ensures Captures(Pending(s), s.nextSeq)
  {
    ReachIsLast(config, s);
    assert Trail(s) == Flat(s.bundles) + Pending(s);
    hide Flat, Reach, Trail, Pending;
    CapturesAfter(Flat(s.bundles), Pending(s), s.nextSeq);
  }

  lemma {:induction false} CapturesAfter(front: seq<Packet>, back: seq<Packet>, bound: nat)
    requires Captures(front + back, bound)
    ensures Captures(back, bound)
    ensures front != [] ==> forall i :: 0 <= i < |back| ==> front[|front| - 1].seqNo < back[i].seqNo
  {
    var whole := front + back;
    forall i | 0 <= i < |back|
      ensures whole[|front| + i] == back[i]
    {
    }
    if front != [] {
      assert whole[|front| - 1] == front[|front| - 1];
    }
  }

  lemma {:induction false} NoWrap(config: Config, s: State)
    requires Inv(config, s) && s.tx.Sending? && Contiguous(s.tx.bundle)
    ensures s.tx.bundle != []
    ensures SeqAfter(s.tx.bundle[0].seqNo, |s.tx.bundle| - 1) == s.tx.bundle[0].seqNo + |s.tx.bundle| - 1
  {
    var n := |s.tx.bundle| - 1;
    PendingAfterReach(config, s);
    assert Pending(s)[0] == s.tx.bundle[0] && Pending(s)[n] == s.tx.bundle[n];
    hide QueueInv, Conserved;
  }
}
