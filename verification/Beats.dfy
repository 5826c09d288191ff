/**
 * What the client's beats and openings say, read off the history with the protocol's own op codes and
 * close codes.
 */
module Beats {
  import opened Options
  import opened Gateway
  import opened Liveness

  // ---------------------------------------------------------------- beats

  /** The beat names the live sequence number of the history, or none if there is none. */
  predicate Carries(o: Outgoing, h: seq<Input>) {
    match o
    case Heartbeat(Some(n)) => exists i :: 0 <= i < |h| && LiveNumber(h, |h|, i) && h[i].s == n
    case Heartbeat(None) => forall i :: 0 <= i < |h| ==> !LiveNumber(h, |h|, i)
    case _ => false
  }

  lemma BeatCarries(h: seq<Input>)
    ensures Carries(Beat(SessionAt(h, |h|)), h)
  {
    SequenceIsHistory(h, |h|);
    assert forall i :: LiveNumber(h, |h|, i) ==> 0 <= i < |h| && h[i].s > 0;
    hide LiveNumber, SessionAt;
  }

  /** A beat names a number exactly if it is the live one, and no number exactly if there is no live one. */
  lemma BeatExactlyWhen(h: seq<Input>, n: int)
    ensures Beat(SessionAt(h, |h|)) == Heartbeat(Some(n)) <==> exists i :: LiveNumber(h, |h|, i) && h[i].s == n
    ensures Beat(SessionAt(h, |h|)) == Heartbeat(None) <==> forall i :: !LiveNumber(h, |h|, i)
  {
    BeatCarries(h);
    SequenceIsHistory(h, |h|);
    assert forall i :: LiveNumber(h, |h|, i) ==> 0 <= i < |h| && h[i].s > 0;
    hide LiveNumber, SessionAt;
  }

  lemma {:induction false} HistoryGrows(h: seq<Input>, stream: seq<Input>)
    ensures AfterAll(SessionAt(h, |h|), stream) == SessionAt(h + stream, |h + stream|)
  {
    hide After;
    if stream == [] {
      assert h + stream == h;
    } else {
      var init, e := stream[..|stream| - 1], stream[|stream| - 1];
      HistoryGrows(h, init);
      assert (h + stream)[..|h + init|] == h + init && (h + stream)[|h + init|] == e;
      SessionOfPrefix(h + stream, h + init);
    }
  }

  /** Every heartbeat the server asks for with op code 1 is answered, in order, by a beat that names the live number of that moment. */
  lemma {:induction false} RepliesCarry(h: seq<Input>, stream: seq<Input>) returns (asked: seq<nat>)
    ensures |asked| == |Replies(SessionAt(h, |h|), stream)|
    ensures forall j :: 0 <= j < |asked| ==> asked[j] < |stream| && stream[asked[j]].Frame? && stream[asked[j]].op == 1
    ensures forall j :: 0 <= j < |asked| ==> Carries(Replies(SessionAt(h, |h|), stream)[j], h + stream[..asked[j] + 1])
    ensures forall j, k :: 0 <= j < k < |asked| ==> asked[j] < asked[k]
    ensures forall m :: 0 <= m < |stream| && stream[m].Frame? && stream[m].op == 1 ==> m in asked
    decreases |stream|
  {
    asked := [];
    if stream != [] {
      var init, e := stream[..|stream| - 1], stream[|stream| - 1];
      asked := RepliesCarry(h, init);
      RepliesStep(SessionAt(h, |h|), stream);
      hide Replies, Carries, Beat, SessionAt, AfterAll;
      assert forall m :: 0 <= m < |init| ==> stream[m] == init[m] && stream[..m + 1] == init[..m + 1];
      if e.Frame? && e.op == HEARTBEAT {
        HistoryGrows(h, stream);
        BeatCarries(h + stream);
        assert stream[..|stream|] == stream;
        asked := asked + [|stream| - 1];
      }
    }
  }

  lemma RepliesStep(s: Session, stream: seq<Input>)
    requires stream != []
    ensures var e := stream[|stream| - 1];
      Replies(s, stream) == Replies(s, stream[..|stream| - 1]) +
        if e.Frame? && e.op == HEARTBEAT then [Beat(AfterAll(s, stream))] else []
  {
  }

  /** Every beat of the heartbeat loop names the live number of the inputs that have arrived by its tick. */
  lemma TickBeatsCarry(h: seq<Input>, stream: seq<Input>, w: Watch, k: int)
    ensures Carries(BeatAt(SessionAt(h, |h|), stream, w, k), h + ArrivedBy(stream, TickTime(w.started, w.interval, k)))
  {
    var arrived := ArrivedBy(stream, TickTime(w.started, w.interval, k));
    HistoryGrows(h, arrived);
    BeatCarries(h + arrived);
    hide Carries, Beat, SessionAt, AfterAll;
  }

  // ---------------------------------------------------------------- openings

  lemma OneInputMore(h: seq<Input>, e: Input)
    ensures SessionAt(h + [e], |h + [e]|) == After(SessionAt(h, |h|), e)
  {
    assert (h + [e])[..|h|] == h;
    SessionOfPrefix(h + [e], h);
  }

  /** How the next connection will be opened after this history. */
  function NextOpening(h: seq<Input>): Outgoing {
    Opening(SessionAt(h, |h|))
  }

  /** These close codes end the session; after any other close, and after an error without a code, the next opening is as it was to be. */
  lemma OpeningAfterClose(h: seq<Input>, at: int, code: int)
    ensures NextOpening(h + [Closed(at, code)]) ==
      if code in {4001, 4002, 4006, 4007, 4010, 4011, 4012, 4013, 4014, 4914, 4915} then Identify else NextOpening(h)
    ensures NextOpening(h + [Broken(at)]) == NextOpening(h) && NextOpening(h + [Garbled(at)]) == NextOpening(h)
  {
    SessionIsHistory(h, |h|);
    OneInputMore(h, Closed(at, code));
    OneInputMore(h, Broken(at));
    OneInputMore(h, Garbled(at));
    hide SessionAt, LiveGrant;
  }

  /**
   * Op code 9 ends the session, a readable READY (op code 0) begins the one it names, and any other
   * frame leaves it; a positive sequence number goes into the Resume, unless the session ends.
   */
  lemma OpeningAfterFrame(h: seq<Input>, e: Input)
    requires e.Frame?
    ensures e.op == 9 ==> NextOpening(h + [e]) == Identify
    ensures e.op == 0 && e.t == "READY" && e.session.Some? ==>
      NextOpening(h + [e]) == if e.session.value == "" then Identify
        else Resume(e.session.value, if e.s > 0 then e.s else SessionAt(h, |h|).last)
    ensures e.op != 9 && !(e.op == 0 && e.t == "READY" && e.session.Some?) ==>
      NextOpening(h + [e]) ==
        match NextOpening(h)
        case Resume(id, last) => Resume(id, if e.s > 0 then e.s else last)
        case other => other
  {
    SessionIsHistory(h, |h|);
    OneInputMore(h, e);
    hide SessionAt, LiveGrant;
  }

  /** A connection ends with a close, an error, or op code 7 or 9; op code 11 acknowledges a heartbeat. */
  lemma EndsAndAcknowledges(hello: int, stream: seq<Input>, e: Input)
    ensures Ends(e) <==> e.Closed? || e.Broken? || (e.Frame? && (e.op == 7 || e.op == 9))
    ensures LastAck(hello, stream + [e]) == if e.Frame? && e.op == 11 then e.at else LastAck(hello, stream)
  {
    assert (stream + [e])[..|stream|] == stream;
  }

  // ---------------------------------------------------------------- waits

  /** One second, doubled up to half a minute; a stable connection is one of more than a minute. */
  lemma BackoffInSeconds(j: nat)
    ensures Backoff(0) == 1_000_000_000
    ensures Backoff(j + 1) == if 2 * Backoff(j) < 30_000_000_000 then 2 * Backoff(j) else 30_000_000_000
  {
  }

  /** The doubling starts again behind a connection that lasted more than a minute, and behind no other. */
  lemma StableIsMoreThanAMinute(attempts: seq<Attempt>, k: int, i: int)
    requires LastStable(attempts, k, i)
    ensures i > 0 ==> attempts[i].lasted > 60_000_000_000
    ensures forall j :: i < j <= k ==> attempts[j].lasted <= 60_000_000_000
  {
  }
}
