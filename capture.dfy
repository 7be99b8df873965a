/** The synchronous capture of the feed's recommendation responses
    (`BilibiliNetworkCapture.start_capture` in functions/bili.py): a response
    handler that appends matching response bodies to a buffer, and a scroll
    loop that keeps scrolling until the buffer holds `MaxCaptures` bodies or
    `MaxScrolls` scrolls have been made. */
module Capture {
  import opened Text

  /** Only responses whose URL contains this string are captured. */
  const TargetUrlPattern: string := "https://api.bilibili.com/x/web-interface/wbi/index/top/feed/rcmd?web_location"
  const MaxCaptures: nat := 10
  const MaxScrolls: nat := 30
  /** Every `LongWaitEvery`-th scroll is followed by an extra pause. */
  const LongWaitEvery: nat := 5

  /** The result of `response.text()`: the body, or the exception it raised. */
  datatype Body = Read(text: string) | ReadFailed

  /** A response observed by the page. */
  datatype Response = Response(url: string, body: Body)

  predicate Matches(r: Response) {
    Contains(r.url, TargetUrlPattern)
  }

  /** What the handler appends for one response: the body of a matching
      response whose text could be read, nothing otherwise. */
  function AcceptedOne(r: Response): seq<string> {
    if Matches(r) && r.body.Read? then [r.body.text] else []
  }

  /** The bodies the handler appends for a batch of responses, in arrival order. */
  function Accepted(batch: seq<Response>): seq<string>
    decreases |batch|
  {
    if batch == [] then [] else Accepted(batch[..|batch| - 1]) + AcceptedOne(batch[|batch| - 1])
  }

  /** The handler keeps exactly the matching, readable responses, each once and in order. */
  lemma {:induction false} AcceptedCharacterised(batch: seq<Response>)
    ensures |Accepted(batch)| <= |batch|
    ensures forall s :: s in Accepted(batch) <==>
              exists i :: 0 <= i < |batch| && Matches(batch[i]) && batch[i].body == Read(s)
    decreases |batch|
  {
    if batch != [] {
      var init := batch[..|batch| - 1];
      var last := batch[|batch| - 1];
      AcceptedCharacterised(init);
      forall s ensures s in Accepted(batch) <==>
                       exists i :: 0 <= i < |batch| && Matches(batch[i]) && batch[i].body == Read(s)
      {
        if s in Accepted(init) {
          var i :| 0 <= i < |init| && Matches(init[i]) && init[i].body == Read(s);
          assert batch[i] == init[i];
        }
        if exists i :: 0 <= i < |batch| && Matches(batch[i]) && batch[i].body == Read(s) {
          var i :| 0 <= i < |batch| && Matches(batch[i]) && batch[i].body == Read(s);
          if i < |init| {
            assert init[i] == batch[i];
          }
        }
      }
    }
  }

  /** Handling batch `a` then batch `b` appends what handling `a + b` appends. */
  lemma {:induction false} AcceptedConcat(a: seq<Response>, b: seq<Response>)
    ensures Accepted(a + b) == Accepted(a) + Accepted(b)
    decreases |b|
  {
    if b == [] {
      assert a + b == a;
    } else {
      var b' := b[..|b| - 1];
      assert (a + b)[..|a + b| - 1] == a + b';
      assert (a + b)[|a + b| - 1] == b[|b| - 1];
      AcceptedConcat(a, b');
    }
  }

  /** Everything the handler appends during the first `n` scrolls, where
      `batches(k)` is the batch of responses that arrive during scroll `k`. */
  function Gathered(batches: nat -> seq<Response>, n: nat): seq<string>
    decreases n
  {
    if n == 0 then [] else Gathered(batches, n - 1) + Accepted(batches(n - 1))
  }

  /** The scroll loop from scroll `k` on, with buffer `buf`: the final buffer
      and the final scroll count. */
  function RunFrom(buf: seq<string>, batches: nat -> seq<Response>, k: nat): (seq<string>, nat)
    requires k <= MaxScrolls
    decreases MaxScrolls - k
  {
    if |buf| < MaxCaptures && k < MaxScrolls then RunFrom(buf + Accepted(batches(k)), batches, k + 1)
    else (buf, k)
  }

  /** One scroll of the loop while the quota is unmet and scrolls remain. */
  lemma RunFromStep(buf: seq<string>, batches: nat -> seq<Response>, k: nat)
    requires |buf| < MaxCaptures && k < MaxScrolls
    ensures RunFrom(buf, batches, k) == RunFrom(buf + Accepted(batches(k)), batches, k + 1)
  {
  }

  /** Before each of the first `n` scrolls the buffer was still below the quota. */
  predicate QuotaUnmetBefore(start: seq<string>, batches: nat -> seq<Response>, n: nat) {
    forall j :: 0 <= j < n ==> |start + Gathered(batches, j)| < MaxCaptures
  }

  /** One more scroll appends that scroll's batch to what was gathered so far. */
  lemma GatheredStep(start: seq<string>, batches: nat -> seq<Response>, k: nat)
    ensures start + Gathered(batches, k + 1) == (start + Gathered(batches, k)) + Accepted(batches(k))
  {
  }

  lemma {:induction false} RunFromSpec(start: seq<string>, batches: nat -> seq<Response>, k: nat, buf: seq<string>)
    requires k <= MaxScrolls && buf == start + Gathered(batches, k)
    requires QuotaUnmetBefore(start, batches, k)
    ensures var r := RunFrom(buf, batches, k);
            && k <= r.1 <= MaxScrolls
            && (|r.0| >= MaxCaptures || r.1 == MaxScrolls)
            && r.0 == start + Gathered(batches, r.1)
            && QuotaUnmetBefore(start, batches, r.1)
    decreases MaxScrolls - k
  {
    if |buf| < MaxCaptures && k < MaxScrolls {
      var next := buf + Accepted(batches(k));
      GatheredStep(start, batches, k);
      assert QuotaUnmetBefore(start, batches, k + 1) by {
        forall j | 0 <= j < k + 1 ensures |start + Gathered(batches, j)| < MaxCaptures {
          if j == k { assert start + Gathered(batches, j) == buf; }
        }
      }
      RunFromSpec(start, batches, k + 1, next);
    }
  }

  /** The capture loop as a whole: it stops after at most `MaxScrolls` scrolls,
      and only once the quota is met or the scroll cap is reached; the final
      buffer is the starting buffer followed by everything captured during the
      scrolls made, and before each of those scrolls the quota was still unmet. */
  lemma CaptureRunSpec(start: seq<string>, batches: nat -> seq<Response>)
    ensures var r := RunFrom(start, batches, 0);
            && r.1 <= MaxScrolls
            && (|r.0| >= MaxCaptures || r.1 == MaxScrolls)
            && r.0 == start + Gathered(batches, r.1)
            && forall j :: 0 <= j < r.1 ==> |start + Gathered(batches, j)| < MaxCaptures
  {
    assert start + Gathered(batches, 0) == start;
    RunFromSpec(start, batches, 0, start);
  }

  /** With no matching traffic the loop makes all `MaxScrolls` scrolls. */
  lemma {:induction false} NoTrafficRunsToCap(start: seq<string>, batches: nat -> seq<Response>, k: nat)
    requires |start| < MaxCaptures && k <= MaxScrolls
    requires forall j: nat :: Accepted(batches(j)) == []
    ensures RunFrom(start, batches, k) == (start, MaxScrolls)
    decreases MaxScrolls - k
  {
    if k < MaxScrolls {
      assert start + Accepted(batches(k)) == start;
      NoTrafficRunsToCap(start, batches, k + 1);
    }
  }

  /** The handler never consults the quota: eleven matching responses arriving
      during the first scroll all end up in the buffer. */
  lemma QuotaCanBeExceeded()
    ensures var eleven := seq(11, _ => Response(TargetUrlPattern, Read("{}")));
            |RunFrom([], (k: nat) => if k == 0 then eleven else [], 0).0| == 11
  {
    var eleven := seq(11, _ => Response(TargetUrlPattern, Read("{}")));
    var batches := (k: nat) => if k == 0 then eleven else [];
    assert Matches(eleven[0]) by { assert IsPrefix(TargetUrlPattern, TargetUrlPattern); }
    assert forall i :: 0 <= i <= 11 ==> |Accepted(eleven[..i])| == i by {
      forall i | 0 <= i <= 11 ensures |Accepted(eleven[..i])| == i {
        AcceptedPrefixLength(eleven, i);
      }
    }
    assert eleven[..11] == eleven;
    assert batches(0) == eleven;
    assert [] + Accepted(eleven) == Accepted(eleven);
    assert RunFrom(Accepted(eleven), batches, 1) == (Accepted(eleven), 1);
  }

  lemma {:induction false} AcceptedPrefixLength(batch: seq<Response>, i: nat)
    requires i <= |batch|
    requires forall j :: 0 <= j < |batch| ==> batch[j] == Response(TargetUrlPattern, Read("{}"))
    ensures |Accepted(batch[..i])| == i
    decreases i
  {
    if i > 0 {
      assert batch[..i][..i - 1] == batch[..i - 1];
      assert Matches(batch[i - 1]) by { assert IsPrefix(TargetUrlPattern, TargetUrlPattern); }
      AcceptedPrefixLength(batch, i - 1);
    }
  }

  /** One more scroll adds one long pause exactly when it completes a group of `LongWaitEvery`. */
  lemma LongWaitStep(k: nat)
    ensures (k + 1) / LongWaitEvery == k / LongWaitEvery + (if (k + 1) % LongWaitEvery == 0 then 1 else 0)
  {
  }

  /** The capture object of one run: the buffer of captured response bodies. */
  class NetworkCapture {
    var capturedResponses: seq<string>

    constructor ()
      ensures capturedResponses == []
    {
      capturedResponses := [];
    }

    /** The response handler: append the body of a matching response; a body
        that cannot be read is skipped. The quota is not consulted. */
    method OnResponse(r: Response)
      modifies this
      ensures Matches(r) && r.body.Read? ==> capturedResponses == old(capturedResponses) + [r.body.text]
      ensures !(Matches(r) && r.body.Read?) ==> capturedResponses == old(capturedResponses)
    {
      if Contains(r.url, TargetUrlPattern) {
        match r.body
        case Read(text) =>
          capturedResponses := capturedResponses + [text];
        case ReadFailed =>
      }
    }

    /** Deliver one scroll's batch of responses to the handler, in order. */
    method Deliver(batch: seq<Response>)
      modifies this
      ensures capturedResponses == old(capturedResponses) + Accepted(batch)
    {
      var i := 0;
      while i < |batch|
        invariant 0 <= i <= |batch|
        invariant capturedResponses == old(capturedResponses) + Accepted(batch[..i])
      {
        OnResponse(batch[i]);
        assert batch[..i + 1][..i] == batch[..i];
        i := i + 1;
      }
      assert batch[..|batch|] == batch;
    }

    /** `start_capture`: scroll until the quota is met or the scroll cap is
        reached and return a copy of the buffer. Scrolling, sleeping and
        waiting for the network are no-ops here; `batches(k)` is what arrives
        during scroll `k`. `scrolls` is the final scroll count and
        `longWaits` the number of extended pauses taken. */
    method StartCapture(batches: nat -> seq<Response>) returns (result: seq<string>, ghost scrolls: nat, ghost longWaits: nat)
      modifies this
      ensures (capturedResponses, scrolls) == RunFrom(old(capturedResponses), batches, 0)
      ensures result == capturedResponses
      ensures scrolls <= MaxScrolls
      ensures |capturedResponses| >= MaxCaptures || scrolls == MaxScrolls
      ensures capturedResponses == old(capturedResponses) + Gathered(batches, scrolls)
      ensures longWaits == scrolls / LongWaitEvery
    {
      CaptureRunSpec(capturedResponses, batches);
      var scrollCount: nat := 0;
      longWaits := 0;
      while |capturedResponses| < MaxCaptures && scrollCount < MaxScrolls
        invariant scrollCount <= MaxScrolls
        invariant RunFrom(capturedResponses, batches, scrollCount) == RunFrom(old(capturedResponses), batches, 0)
        invariant longWaits == scrollCount / LongWaitEvery
        decreases MaxScrolls - scrollCount
      {
        RunFromStep(capturedResponses, batches, scrollCount);
        Deliver(batches(scrollCount));
        LongWaitStep(scrollCount);
        scrollCount := scrollCount + 1;
        if scrollCount % LongWaitEvery == 0 {
          longWaits := longWaits + 1;
        }
      }
      assert RunFrom(capturedResponses, batches, scrollCount) == (capturedResponses, scrollCount);
      scrolls := scrollCount;
      result := capturedResponses;
    }
  }
}
