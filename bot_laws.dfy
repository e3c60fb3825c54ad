/**
 * What the bot loop of src/bot/mod.rs guarantees, stated over the round and run functions:
 * a dry run only prints, posting follows the contents in order with a pause after each post
 * and stops at the first failed post, the first error ends a round while the later feeds keep
 * their watermarks, nothing is posted twice, and `run` reports exactly the recoverable errors
 * and stops on the others.
 */
module BotLaws {
  import opened Wrappers
  import opened Errors
  import opened Text
  import opened Rss
  import opened RssFeed
  import opened BotLoop

  // ---------------------------------------------------------------- one check's contents

  /** A dry run prints every content, in order, and makes no post attempt. */
  lemma {:induction false} DeliverDryRun(cs: seq<Content>, baseUrl: string, remote: nat -> Remote, k: nat)
    ensures var d := Deliver(cs, true, baseUrl, remote, k);
      && d.outcome == Pass && d.posts == k && |d.trace| == |cs|
      && forall j :: 0 <= j < |cs| ==> d.trace[j] == Print(cs[j])
    decreases |cs|
  {
    if cs != [] {
      DeliverDryRun(cs[1..], baseUrl, remote, k);
      var d := Deliver(cs, true, baseUrl, remote, k);
      var rest := Deliver(cs[1..], true, baseUrl, remote, k);
      assert d.trace == [Print(cs[0])] + rest.trace;
      forall j | 0 < j < |cs| ensures d.trace[j] == Print(cs[j]) {
        assert d.trace[j] == rest.trace[j - 1] && cs[j] == cs[1..][j - 1];
      }
    }
  }

  /** Content `j` posted as attempt `k + j`, each post followed by the pause. */
  function PostPairs(cs: seq<Content>, baseUrl: string, remote: nat -> Remote, k: nat): (ps: seq<Event>)
    ensures |ps| == 2 * |cs|
    decreases |cs|
  {
    if cs == [] then []
    else [PostEvent(cs[0], baseUrl, remote(k).options), Sleep(PostPause)] + PostPairs(cs[1..], baseUrl, remote, k + 1)
  }

  /** In PostPairs, the post of content `j` sits at `2 * j` and its pause right after. */
  lemma {:induction false} PostPairsAt(cs: seq<Content>, baseUrl: string, remote: nat -> Remote, k: nat, j: nat)
    requires j < |cs|
    ensures PostPairs(cs, baseUrl, remote, k)[2 * j] == PostEvent(cs[j], baseUrl, remote(k + j).options)
    ensures PostPairs(cs, baseUrl, remote, k)[2 * j + 1] == Sleep(PostPause)
    decreases j
  {
    var rest := PostPairs(cs[1..], baseUrl, remote, k + 1);
    assert PostPairs(cs, baseUrl, remote, k) == [PostEvent(cs[0], baseUrl, remote(k).options), Sleep(PostPause)] + rest;
    if j > 0 {
      PostPairsAt(cs[1..], baseUrl, remote, k + 1, j - 1);
      assert cs[1..][j - 1] == cs[j] && k + 1 + (j - 1) == k + j;
    }
  }

  /** Attempts `k` to `k + n - 1` were all accepted. */
  predicate Accepted(remote: nat -> Remote, k: nat, n: nat)
  {
    forall a :: k <= a < k + n ==> remote(a).status.Pass?
  }

  lemma AcceptedCons(remote: nat -> Remote, k: nat, n: nat)
    requires remote(k).status.Pass? && Accepted(remote, k + 1, n)
    ensures Accepted(remote, k, n + 1)
  {
  }

  /** The first `n` contents are exactly those of a prefix of length `n`. */
  lemma PostPairsPrefix(cs: seq<Content>, baseUrl: string, remote: nat -> Remote, k: nat, n: nat)
    requires 0 < n <= |cs|
    ensures PostPairs(cs[..n], baseUrl, remote, k) ==
      [PostEvent(cs[0], baseUrl, remote(k).options), Sleep(PostPause)] + PostPairs(cs[1..][..n - 1], baseUrl, remote, k + 1)
  {
    assert cs[..n][0] == cs[0] && cs[..n][1..] == cs[1..][..n - 1];
  }

  /**
   * The shape of a real delivery from attempt `k`: when it passes, every content was posted,
   * each followed by the pause, and every attempt was accepted; when it fails at content `n`,
   * the contents before it went out as in a pass, the post of content `n` is the last event
   * and the failure is the answer to that attempt.
   */
  predicate PostedAs(d: Delivery, cs: seq<Content>, baseUrl: string, remote: nat -> Remote, k: nat)
  {
    && k <= d.posts <= k + |cs|
    && (d.outcome.Pass? ==>
      && d.posts == k + |cs| && d.trace == PostPairs(cs, baseUrl, remote, k)
      && Accepted(remote, k, |cs|))
    && (d.outcome.Fail? ==>
      var n := d.posts - k - 1;
      && 0 <= n < |cs|
      && d.trace == PostPairs(cs[..n], baseUrl, remote, k) + [PostEvent(cs[n], baseUrl, remote(k + n).options)]
      && d.outcome == remote(k + n).status
      && Accepted(remote, k, n))
  }

  /** An accepted first post, its pause and a delivery of the rest of that shape. */
  lemma PostedAsCons(rest: Delivery, cs: seq<Content>, baseUrl: string, remote: nat -> Remote, k: nat)
    requires cs != [] && remote(k).status.Pass? && PostedAs(rest, cs[1..], baseUrl, remote, k + 1)
    ensures PostedAs(Delivery([PostEvent(cs[0], baseUrl, remote(k).options), Sleep(PostPause)] + rest.trace,
                              rest.outcome, rest.posts), cs, baseUrl, remote, k)
  {
    var post := PostEvent(cs[0], baseUrl, remote(k).options);
    if rest.outcome.Pass? {
      AcceptedCons(remote, k, |cs| - 1);
    } else {
      var n := rest.posts - (k + 1) - 1;
      AcceptedCons(remote, k, n);
      PostPairsPrefix(cs, baseUrl, remote, k, n + 1);
      assert cs[1..][n] == cs[n + 1];
      ConcatAssoc([post, Sleep(PostPause)], PostPairs(cs[1..][..n], baseUrl, remote, k + 1),
                  [PostEvent(cs[n + 1], baseUrl, remote(k + 1 + n).options)]);
    }
  }

  /** A real delivery has that shape. */
  lemma {:induction false} DeliverPosts(cs: seq<Content>, baseUrl: string, remote: nat -> Remote, k: nat)
    ensures PostedAs(Deliver(cs, false, baseUrl, remote, k), cs, baseUrl, remote, k)
    decreases |cs|
  {
    if cs != [] {
      var post := PostEvent(cs[0], baseUrl, remote(k).options);
      var d := Deliver(cs, false, baseUrl, remote, k);
      if remote(k).status.Fail? {
        assert d == Delivery([post], remote(k).status, k + 1);
        assert cs[..0] == [];
      } else {
        DeliverPosts(cs[1..], baseUrl, remote, k + 1);
        var rest := Deliver(cs[1..], false, baseUrl, remote, k + 1);
        assert d == Delivery([post, Sleep(PostPause)] + rest.trace, rest.outcome, rest.posts);
        PostedAsCons(rest, cs, baseUrl, remote, k);
      }
    }
  }

  // ---------------------------------------------------------------- one round

  /**
   * A dry run only prints. Its round passes exactly when every check succeeds, and when it
   * fails its error is that of the first failing check.
   */
  lemma {:induction false} RoundDryRun(checks: seq<CheckOut>, marks: seq<Option<nat>>, baseUrl: string,
                                       remote: nat -> Remote, k: nat)
    requires |marks| == |checks|
    ensures var out := RoundOver(checks, marks, true, baseUrl, remote, k);
      && (forall ev :: ev in out.trace ==> ev.Print?)
      && (out.outcome.Pass? <==> forall i :: 0 <= i < |checks| ==> checks[i].result.Ok?)
      && (out.outcome.Fail? ==>
        exists i :: 0 <= i < |checks| && checks[i].result == Err(out.outcome.error)
          && forall j :: 0 <= j < i ==> checks[j].result.Ok?)
    decreases |checks|
  {
    if checks != [] {
      var c := checks[0];
      RoundDryRun(checks[1..], marks[1..], baseUrl, remote, k);
      if c.result.Err? {
        assert RoundOver(checks, marks, true, baseUrl, remote, k).outcome == Fail(c.result.error);
      } else {
        DeliverDryRun(c.result.value, baseUrl, remote, k);
        var d := Deliver(c.result.value, true, baseUrl, remote, k);
        var rest := RoundOver(checks[1..], marks[1..], true, baseUrl, remote, k);
        var out := RoundOver(checks, marks, true, baseUrl, remote, k);
        assert out == RoundOut(d.trace + rest.trace, rest.outcome, [c.lastPost] + rest.marks);
        assert forall ev :: ev in d.trace ==> ev.Print?;
        assert forall i :: 0 < i < |checks| ==> checks[i] == checks[1..][i - 1];
        if rest.outcome.Fail? {
          var i :| 0 <= i < |checks[1..]| && checks[1..][i].result == Err(rest.outcome.error)
            && forall j :: 0 <= j < i ==> checks[1..][j].result.Ok?;
          assert checks[i + 1].result == Err(out.outcome.error);
        }
      }
    }
  }

  /**
   * The first `n` feeds carry the watermarks their checks left and the others keep theirs. A
   * round that passes visited every feed and every check succeeded; one that fails stopped at
   * feed `n - 1`, after every earlier check succeeded.
   */
  predicate MovedUpTo(out: RoundOut, checks: seq<CheckOut>, marks: seq<Option<nat>>, n: nat)
    requires |out.marks| == |checks| == |marks|
  {
    && n <= |checks|
    && (forall j :: 0 <= j < n ==> out.marks[j] == checks[j].lastPost)
    && (forall j :: n <= j < |checks| ==> out.marks[j] == marks[j])
    && (out.outcome.Pass? ==> n == |checks| && forall j :: 0 <= j < |checks| ==> checks[j].result.Ok?)
    && (out.outcome.Fail? ==> 0 < n && forall j :: 0 <= j < n - 1 ==> checks[j].result.Ok?)
  }

  /** A feed whose visit passed goes in front of the rest of the round. */
  lemma MovedUpToCons(out: RoundOut, rest: RoundOut, checks: seq<CheckOut>, marks: seq<Option<nat>>, n: nat)
    requires 0 < |checks| && |marks| == |checks| && |rest.marks| == |checks| - 1 && checks[0].result.Ok?
    requires out.outcome == rest.outcome && out.marks == [checks[0].lastPost] + rest.marks
    requires MovedUpTo(rest, checks[1..], marks[1..], n)
    ensures MovedUpTo(out, checks, marks, n + 1)
  {
    forall j | 0 < j < |checks|
      ensures out.marks[j] == rest.marks[j - 1] && checks[j] == checks[1..][j - 1] && marks[j] == marks[1..][j - 1]
    {
    }
  }

  /** The watermarks after a round: the feeds the round reached have moved, the others have not. */
  lemma {:induction false} RoundMarks(checks: seq<CheckOut>, marks: seq<Option<nat>>, dryRun: bool, baseUrl: string,
                                      remote: nat -> Remote, k: nat)
    requires |marks| == |checks|
    ensures exists n: nat :: MovedUpTo(RoundOver(checks, marks, dryRun, baseUrl, remote, k), checks, marks, n)
    decreases |checks|
  {
    var out := RoundOver(checks, marks, dryRun, baseUrl, remote, k);
    if checks == [] {
      assert out == RoundOut([], Pass, []);
      assert MovedUpTo(out, checks, marks, 0);
    } else {
      var v := VisitFeed(checks[0], dryRun, baseUrl, remote, k);
      if v.outcome.Fail? {
        assert out.marks == [checks[0].lastPost] + marks[1..];
        assert MovedUpTo(out, checks, marks, 1);
      } else {
        RoundMarks(checks[1..], marks[1..], dryRun, baseUrl, remote, v.posts);
        var rest := RoundOver(checks[1..], marks[1..], dryRun, baseUrl, remote, v.posts);
        var n: nat :| MovedUpTo(rest, checks[1..], marks[1..], n);
        assert out == RoundOut(v.trace + rest.trace, rest.outcome, [checks[0].lastPost] + rest.marks);
        MovedUpToCons(out, rest, checks, marks, n);
      }
    }
  }

  /** When every check finds nothing and leaves its watermark, the round does nothing at all. */
  lemma {:induction false} RoundQuiet(checks: seq<CheckOut>, marks: seq<Option<nat>>, dryRun: bool, baseUrl: string,
                                      remote: nat -> Remote, k: nat)
    requires |marks| == |checks|
    requires forall j :: 0 <= j < |checks| ==> checks[j] == CheckOut(Ok([]), marks[j])
    ensures RoundOver(checks, marks, dryRun, baseUrl, remote, k) == RoundOut([], Pass, marks)
    decreases |checks|
  {
    if checks != [] {
      assert forall j :: 0 <= j < |checks[1..]| ==> checks[1..][j] == checks[j + 1] && marks[1..][j] == marks[j + 1];
      RoundQuiet(checks[1..], marks[1..], dryRun, baseUrl, remote, k);
      assert marks == [marks[0]] + marks[1..];
    }
  }

  /**
   * Nothing is posted twice: right after a round that passes, a round over the same downloads
   * prints, posts and moves nothing.
   */
  lemma RoundAgainQuiet(urls: seq<Url>, marks: seq<Option<nat>>, fetched: seq<Result<seq<Item>, Error>>,
                        dryRun: bool, baseUrl: string, remote: nat -> Remote, remote': nat -> Remote)
    requires |marks| == |urls| && |fetched| == |urls|
    requires Round(urls, marks, fetched, dryRun, baseUrl, remote).outcome.Pass?
    ensures var o := Round(urls, marks, fetched, dryRun, baseUrl, remote);
      Round(urls, o.marks, fetched, dryRun, baseUrl, remote') == RoundOut([], Pass, o.marks)
  {
    var checks := Checks(urls, marks, fetched);
    var o := RoundOver(checks, marks, dryRun, baseUrl, remote, 0);
    RoundMarks(checks, marks, dryRun, baseUrl, remote, 0);
    var n: nat :| MovedUpTo(o, checks, marks, n);
    var again := Checks(urls, o.marks, fetched);
    forall j | 0 <= j < |urls|
      ensures again[j] == CheckOut(Ok([]), o.marks[j])
    {
      CheckTwice(urls[j], marks[j], fetched[j]);
    }
    RoundQuiet(again, o.marks, dryRun, baseUrl, remote', 0);
  }

  // ---------------------------------------------------------------- a round that posts

  /** The contents the checks found, feed after feed; a failed check contributes none. */
  function Found(checks: seq<CheckOut>): seq<Content>
    decreases |checks|
  {
    if checks == [] then []
    else (if checks[0].result.Ok? then checks[0].result.value else []) + Found(checks[1..])
  }

  /** Posting two runs of contents one after the other: attempt numbers continue. */
  lemma {:induction false} PostPairsAppend(a: seq<Content>, b: seq<Content>, baseUrl: string, remote: nat -> Remote, k: nat)
    ensures PostPairs(a + b, baseUrl, remote, k) == PostPairs(a, baseUrl, remote, k) + PostPairs(b, baseUrl, remote, k + |a|)
    decreases |a|
  {
    if a == [] {
      assert a + b == b;
    } else {
      var first := [PostEvent(a[0], baseUrl, remote(k).options), Sleep(PostPause)];
      assert (a + b)[0] == a[0] && (a + b)[1..] == a[1..] + b;
      calc {
        PostPairs(a + b, baseUrl, remote, k);
        first + PostPairs(a[1..] + b, baseUrl, remote, k + 1);
        { PostPairsAppend(a[1..], b, baseUrl, remote, k + 1); }
        first + (PostPairs(a[1..], baseUrl, remote, k + 1) + PostPairs(b, baseUrl, remote, k + |a|));
        { ConcatAssoc(first, PostPairs(a[1..], baseUrl, remote, k + 1), PostPairs(b, baseUrl, remote, k + |a|)); }
        PostPairs(a, baseUrl, remote, k) + PostPairs(b, baseUrl, remote, k + |a|);
      }
    }
  }

  /** Every check before feed `i` succeeded. */
  predicate OkBefore(checks: seq<CheckOut>, i: nat)
  {
    forall j :: 0 <= j < i && j < |checks| ==> checks[j].result.Ok?
  }

  /** Feeds up to `i` carry their checks' watermarks; the later ones keep the old `marks`. */
  predicate MarksUpTo(outMarks: seq<Option<nat>>, checks: seq<CheckOut>, marks: seq<Option<nat>>, i: nat)
    requires |outMarks| == |checks| == |marks|
  {
    && (forall j :: 0 <= j <= i && j < |checks| ==> outMarks[j] == checks[j].lastPost)
    && (forall j :: i < j < |checks| ==> outMarks[j] == marks[j])
  }

  /**
   * The trace and outcome of a round stopped at feed `i`, after posting the contents of the
   * feeds before it: feed `i`'s check failed, with that error and nothing more, or its delivery
   * failed at a post, whose error is the round's.
   */
  predicate StoppedAt(trace: seq<Event>, outcome: Outcome<Error>, checks: seq<CheckOut>, baseUrl: string,
                      remote: nat -> Remote, k: nat, i: nat)
    requires i < |checks|
  {
    && (checks[i].result.Err? ==>
      outcome == Fail(checks[i].result.error) && trace == PostPairs(Found(checks[..i]), baseUrl, remote, k))
    && (checks[i].result.Ok? ==>
      var d := Deliver(checks[i].result.value, false, baseUrl, remote, k + |Found(checks[..i])|);
      && d.outcome.Fail? && outcome == d.outcome
      && trace == PostPairs(Found(checks[..i]), baseUrl, remote, k) + d.trace)
  }

  /**
   * A posting round that stopped at feed `i`: every earlier check succeeded and its contents
   * were all posted, each with its pause, and then feed `i` failed as StoppedAt says. Feeds up
   * to `i` carry their checks' watermarks and the later feeds, never visited, keep theirs.
   */
  predicate FailedAt(out: RoundOut, checks: seq<CheckOut>, marks: seq<Option<nat>>, baseUrl: string,
                     remote: nat -> Remote, k: nat, i: nat)
    requires |out.marks| == |checks| == |marks| && i < |checks|
  {
    OkBefore(checks, i) && MarksUpTo(out.marks, checks, marks, i) && StoppedAt(out.trace, out.outcome, checks, baseUrl, remote, k, i)
  }

  /**
   * A posting round: when it passes, every check succeeded, every feed carries its check's
   * watermark and the trace is the posts of all contents found, in feed order; when it fails,
   * it stopped at some feed as FailedAt says.
   */
  predicate RoundPosted(out: RoundOut, checks: seq<CheckOut>, marks: seq<Option<nat>>, baseUrl: string,
                        remote: nat -> Remote, k: nat)
    requires |out.marks| == |checks| == |marks|
  {
    && (out.outcome.Pass? ==>
      && OkBefore(checks, |checks|) && MarksUpTo(out.marks, checks, marks, |checks|)
      && out.trace == PostPairs(Found(checks), baseUrl, remote, k))
    && (out.outcome.Fail? ==> exists i :: 0 <= i < |checks| && FailedAt(out, checks, marks, baseUrl, remote, k, i))
  }

  /** The contents found by the first `n + 1` checks, when the first succeeded. */
  lemma FoundCons(checks: seq<CheckOut>, n: nat)
    requires n < |checks| && checks[0].result.Ok?
    ensures Found(checks[..n + 1]) == checks[0].result.value + Found(checks[1..][..n])
  {
    var pre := checks[..n + 1];
    assert pre[0] == checks[0] && pre[1..] == checks[1..][..n];
  }

  lemma OkBeforeCons(checks: seq<CheckOut>, i: nat)
    requires 0 < |checks| && checks[0].result.Ok? && OkBefore(checks[1..], i)
    ensures OkBefore(checks, i + 1)
  {
    forall j | 0 < j < i + 1 && j < |checks| ensures checks[j].result.Ok? {
      assert checks[j] == checks[1..][j - 1];
    }
  }

  lemma MarksUpToCons(outMarks: seq<Option<nat>>, checks: seq<CheckOut>, marks: seq<Option<nat>>, i: nat)
    requires 0 < |checks| && |marks| == |checks| && |outMarks| == |checks| - 1
    requires MarksUpTo(outMarks, checks[1..], marks[1..], i)
    ensures MarksUpTo([checks[0].lastPost] + outMarks, checks, marks, i + 1)
  {
    var m := [checks[0].lastPost] + outMarks;
    forall j | 0 < j < |checks|
      ensures m[j] == outMarks[j - 1] && checks[j] == checks[1..][j - 1] && marks[j] == marks[1..][j - 1]
    {
    }
  }

  lemma StoppedAtCons(trace: seq<Event>, outcome: Outcome<Error>, checks: seq<CheckOut>, baseUrl: string,
                      remote: nat -> Remote, k: nat, i: nat)
    requires 0 < |checks| && checks[0].result.Ok? && i < |checks| - 1
    requires StoppedAt(trace, outcome, checks[1..], baseUrl, remote, k + |checks[0].result.value|, i)
    ensures StoppedAt(PostPairs(checks[0].result.value, baseUrl, remote, k) + trace, outcome, checks, baseUrl, remote, k, i + 1)
  {
    var cs := checks[0].result.value;
    var tail := checks[1..][..i];
    FoundCons(checks, i);
    assert checks[i + 1] == checks[1..][i];
    PostPairsAppend(cs, Found(tail), baseUrl, remote, k);
    if checks[i + 1].result.Ok? {
      var d := Deliver(checks[i + 1].result.value, false, baseUrl, remote, k + |cs| + |Found(tail)|);
      ConcatAssoc(PostPairs(cs, baseUrl, remote, k), PostPairs(Found(tail), baseUrl, remote, k + |cs|), d.trace);
    }
  }

  /** A feed whose contents were all posted goes in front of a round stopped at feed `i`. */
  lemma FailedAtCons(rest: RoundOut, checks: seq<CheckOut>, marks: seq<Option<nat>>, baseUrl: string,
                     remote: nat -> Remote, k: nat, i: nat)
    requires 0 < |checks| && |marks| == |checks| && |rest.marks| == |checks| - 1 && checks[0].result.Ok?
    requires i < |checks| - 1
    requires FailedAt(rest, checks[1..], marks[1..], baseUrl, remote, k + |checks[0].result.value|, i)
    ensures FailedAt(RoundOut(PostPairs(checks[0].result.value, baseUrl, remote, k) + rest.trace, rest.outcome,
                              [checks[0].lastPost] + rest.marks), checks, marks, baseUrl, remote, k, i + 1)
  {
    OkBeforeCons(checks, i);
    MarksUpToCons(rest.marks, checks, marks, i);
    StoppedAtCons(rest.trace, rest.outcome, checks, baseUrl, remote, k, i);
  }

  /** The same for a round that passes, and so for any posting round. */
  lemma RoundPostedCons(rest: RoundOut, checks: seq<CheckOut>, marks: seq<Option<nat>>, baseUrl: string,
                        remote: nat -> Remote, k: nat)
    requires 0 < |checks| && |marks| == |checks| && |rest.marks| == |checks| - 1 && checks[0].result.Ok?
    requires RoundPosted(rest, checks[1..], marks[1..], baseUrl, remote, k + |checks[0].result.value|)
    ensures RoundPosted(RoundOut(PostPairs(checks[0].result.value, baseUrl, remote, k) + rest.trace, rest.outcome,
                                 [checks[0].lastPost] + rest.marks), checks, marks, baseUrl, remote, k)
  {
    var cs := checks[0].result.value;
    if rest.outcome.Pass? {
      assert Found(checks) == cs + Found(checks[1..]);
      PostPairsAppend(cs, Found(checks[1..]), baseUrl, remote, k);
      OkBeforeCons(checks, |checks| - 1);
      MarksUpToCons(rest.marks, checks, marks, |checks| - 1);
    } else {
      var i :| 0 <= i < |checks[1..]| && FailedAt(rest, checks[1..], marks[1..], baseUrl, remote, k + |cs|, i);
      FailedAtCons(rest, checks, marks, baseUrl, remote, k, i);
    }
  }

  /** A round whose first feed fails, at its check or at a post, stopped there. */
  lemma FailedAtFirst(checks: seq<CheckOut>, marks: seq<Option<nat>>, baseUrl: string, remote: nat -> Remote, k: nat)
    requires 0 < |checks| && |marks| == |checks|
    requires VisitFeed(checks[0], false, baseUrl, remote, k).outcome.Fail?
    ensures FailedAt(RoundOver(checks, marks, false, baseUrl, remote, k), checks, marks, baseUrl, remote, k, 0)
  {
    var v := VisitFeed(checks[0], false, baseUrl, remote, k);
    var out := RoundOver(checks, marks, false, baseUrl, remote, k);
    assert out == RoundOut(v.trace, v.outcome, [v.mark] + marks[1..]);
    assert checks[..0] == [] && [] + v.trace == v.trace;
    forall j | 0 < j < |checks| ensures out.marks[j] == marks[j] {
      assert out.marks[j] == marks[1..][j - 1];
    }
  }

  /** A round that posts for real stops at its first failure, as RoundPosted says. */
  lemma {:induction false} RoundPosts(checks: seq<CheckOut>, marks: seq<Option<nat>>, baseUrl: string,
                                      remote: nat -> Remote, k: nat)
    requires |marks| == |checks|
    ensures RoundPosted(RoundOver(checks, marks, false, baseUrl, remote, k), checks, marks, baseUrl, remote, k)
    decreases |checks|
  {
    var out := RoundOver(checks, marks, false, baseUrl, remote, k);
    if checks == [] {
      assert out == RoundOut([], Pass, []);
    } else if VisitFeed(checks[0], false, baseUrl, remote, k).outcome.Fail? {
      FailedAtFirst(checks, marks, baseUrl, remote, k);
    } else {
      var cs := checks[0].result.value;
      var d := Deliver(cs, false, baseUrl, remote, k);
      DeliverPosts(cs, baseUrl, remote, k);
      RoundPosts(checks[1..], marks[1..], baseUrl, remote, k + |cs|);
      var rest := RoundOver(checks[1..], marks[1..], false, baseUrl, remote, k + |cs|);
      assert out == RoundOut(d.trace + rest.trace, rest.outcome, [checks[0].lastPost] + rest.marks);
      RoundPostedCons(rest, checks, marks, baseUrl, remote, k);
    }
  }

  /** A feed whose check finds nothing and keeps its watermark adds nothing to a round. */
  lemma RoundQuietStep(checks: seq<CheckOut>, marks: seq<Option<nat>>, dryRun: bool, baseUrl: string,
                       remote: nat -> Remote, k: nat)
    requires |marks| == |checks| && 0 < |checks| && checks[0] == CheckOut(Ok([]), marks[0])
    ensures RoundOver(checks, marks, dryRun, baseUrl, remote, k) ==
      Combine([], [marks[0]], RoundOver(checks[1..], marks[1..], dryRun, baseUrl, remote, k))
  {
    assert Deliver([], dryRun, baseUrl, remote, k) == Delivery([], Pass, k);
  }

  /** Two runs of quiet feeds in a row. */
  lemma CombineQuiet(ms: seq<Option<nat>>, ms': seq<Option<nat>>, rest: RoundOut)
    ensures Combine([], ms, Combine([], ms', rest)) == Combine([], ms + ms', rest)
  {
    ConcatAssoc(ms, ms', rest.marks);
    assert [] + ([] + rest.trace) == [] + rest.trace;
  }

  /** Feeds whose checks find nothing and keep their watermarks add nothing to a round. */
  lemma {:induction false} RoundQuietPrefix(checks: seq<CheckOut>, marks: seq<Option<nat>>, dryRun: bool, baseUrl: string,
                                            remote: nat -> Remote, k: nat, n: nat)
    requires |marks| == |checks| && n <= |checks|
    requires forall j :: 0 <= j < n ==> checks[j] == CheckOut(Ok([]), marks[j])
    ensures RoundOver(checks, marks, dryRun, baseUrl, remote, k) ==
      Combine([], marks[..n], RoundOver(checks[n..], marks[n..], dryRun, baseUrl, remote, k))
    decreases n
  {
    var rest := RoundOver(checks[n..], marks[n..], dryRun, baseUrl, remote, k);
    if n == 0 {
      assert checks[0..] == checks && marks[0..] == marks;
      assert [] + rest.trace == rest.trace && marks[..0] + rest.marks == rest.marks;
    } else {
      assert forall j :: 0 <= j < n - 1 ==> checks[1..][j] == checks[j + 1] && marks[1..][j] == marks[j + 1];
      assert checks[1..][n - 1..] == checks[n..] && marks[1..][n - 1..] == marks[n..];
      assert marks[..n] == [marks[0]] + marks[1..][..n - 1];
      calc {
        RoundOver(checks, marks, dryRun, baseUrl, remote, k);
        { RoundQuietStep(checks, marks, dryRun, baseUrl, remote, k); }
        Combine([], [marks[0]], RoundOver(checks[1..], marks[1..], dryRun, baseUrl, remote, k));
        { RoundQuietPrefix(checks[1..], marks[1..], dryRun, baseUrl, remote, k, n - 1); }
        Combine([], [marks[0]], Combine([], marks[1..][..n - 1], rest));
        { CombineQuiet([marks[0]], marks[1..][..n - 1], rest); }
        Combine([], marks[..n], rest);
      }
    }
  }

  /**
   * Contents left unposted are not posted later: after a round that stopped at a failed post
   * of feed `i`, a round over the same downloads does nothing for feeds 0 to `i`, which keep
   * their watermarks, and is exactly a round over the later feeds alone.
   */
  lemma RoundAfterFailedPost(urls: seq<Url>, marks: seq<Option<nat>>, fetched: seq<Result<seq<Item>, Error>>,
                             baseUrl: string, remote: nat -> Remote, remote': nat -> Remote, i: nat)
    requires |marks| == |urls| && |fetched| == |urls| && i < |urls|
    requires Checks(urls, marks, fetched)[i].result.Ok?
    requires FailedAt(Round(urls, marks, fetched, false, baseUrl, remote), Checks(urls, marks, fetched), marks, baseUrl, remote, 0, i)
    ensures var o := Round(urls, marks, fetched, false, baseUrl, remote);
      Round(urls, o.marks, fetched, false, baseUrl, remote') ==
        Combine([], o.marks[..i + 1], Round(urls[i + 1..], marks[i + 1..], fetched[i + 1..], false, baseUrl, remote'))
  {
    var checks := Checks(urls, marks, fetched);
    var o := Round(urls, marks, fetched, false, baseUrl, remote);
    var again := Checks(urls, o.marks, fetched);
    forall j | 0 <= j <= i
      ensures again[j] == CheckOut(Ok([]), o.marks[j])
    {
      CheckTwice(urls[j], marks[j], fetched[j]);
    }
    RoundQuietPrefix(again, o.marks, false, baseUrl, remote', 0, i + 1);
    var tail := Checks(urls[i + 1..], marks[i + 1..], fetched[i + 1..]);
    assert tail == again[i + 1..] by {
      forall j | 0 <= j < |tail| ensures tail[j] == again[i + 1 + j] {
        assert o.marks[i + 1 + j] == marks[i + 1 + j];
      }
    }
    assert o.marks[i + 1..] == marks[i + 1..] by {
      forall j | i < j < |urls| ensures o.marks[j] == marks[j] {
      }
    }
  }

  // ---------------------------------------------------------------- the run

  /** The errors after which `run` goes on. */
  predicate Recoverable(e: Error)
  {
    e.RequestError? || e.MegalodonError?
  }

  lemma {:induction false} DeliverNoReport(cs: seq<Content>, dryRun: bool, baseUrl: string, remote: nat -> Remote, k: nat)
    ensures forall ev :: ev in Deliver(cs, dryRun, baseUrl, remote, k).trace ==> !ev.Report?
    decreases |cs|
  {
    if cs != [] {
      DeliverNoReport(cs[1..], dryRun, baseUrl, remote, k);
      DeliverNoReport(cs[1..], dryRun, baseUrl, remote, k + 1);
    }
  }

  /** A round only prints, posts and sleeps; reporting is left to `run`. */
  lemma {:induction false} RoundNoReport(checks: seq<CheckOut>, marks: seq<Option<nat>>, dryRun: bool, baseUrl: string,
                                         remote: nat -> Remote, k: nat)
    requires |marks| == |checks|
    ensures forall ev :: ev in RoundOver(checks, marks, dryRun, baseUrl, remote, k).trace ==> !ev.Report?
    decreases |checks|
  {
    if checks != [] {
      var v := VisitFeed(checks[0], dryRun, baseUrl, remote, k);
      if checks[0].result.Ok? {
        DeliverNoReport(checks[0].result.value, dryRun, baseUrl, remote, k);
      }
      RoundNoReport(checks[1..], marks[1..], dryRun, baseUrl, remote, v.posts);
    }
  }

  /**
   * `run` writes out only recoverable errors, and it stops only on an error that is not
   * recoverable.
   */
  lemma {:induction false} RunReports(urls: seq<Url>, marks: seq<Option<nat>>, rounds: seq<RoundInput>,
                                      dryRun: bool, baseUrl: string)
    requires |marks| == |urls| && Fits(rounds, |urls|)
    ensures var out := RunRounds(urls, marks, rounds, dryRun, baseUrl);
      && (forall ev :: ev in out.trace && ev.Report? ==> Recoverable(ev.error))
      && (out.stopped.Some? ==> !Recoverable(out.stopped.value))
    decreases |rounds|
  {
    if rounds != [] {
      var o := Round(urls, marks, rounds[0].fetched, dryRun, baseUrl, rounds[0].remote);
      RoundNoReport(Checks(urls, marks, rounds[0].fetched), marks, dryRun, baseUrl, rounds[0].remote, 0);
      if Classify(o.outcome).Continue? {
        assert Fits(rounds[1..], |urls|) by {
          assert forall n :: 0 <= n < |rounds[1..]| ==> rounds[1..][n] == rounds[n + 1];
        }
        RunReports(urls, o.marks, rounds[1..], dryRun, baseUrl);
      }
    }
  }

  /**
   * Conversely, a round that fails with a recoverable error is reported: its error is written
   * out, the 30 s pause follows and the run goes on with the next round.
   */
  lemma RunReportsRecoverable(urls: seq<Url>, marks: seq<Option<nat>>, rounds: seq<RoundInput>,
                              dryRun: bool, baseUrl: string)
    requires |marks| == |urls| && Fits(rounds, |urls|) && 0 < |rounds|
    requires Round(urls, marks, rounds[0].fetched, dryRun, baseUrl, rounds[0].remote).outcome.Fail?
    requires Recoverable(Round(urls, marks, rounds[0].fetched, dryRun, baseUrl, rounds[0].remote).outcome.error)
    ensures Fits(rounds[1..], |urls|)
    ensures var o := Round(urls, marks, rounds[0].fetched, dryRun, baseUrl, rounds[0].remote);
      var out := RunRounds(urls, marks, rounds, dryRun, baseUrl);
      var rest := RunRounds(urls, o.marks, rounds[1..], dryRun, baseUrl);
      && Report(o.outcome.error) in out.trace
      && out == RunOut(o.trace + [Report(o.outcome.error), Sleep(RoundPause)] + rest.trace, rest.stopped, rest.marks)
  {
    assert forall n :: 0 <= n < |rounds[1..]| ==> rounds[1..][n] == rounds[n + 1];
    var o := Round(urls, marks, rounds[0].fetched, dryRun, baseUrl, rounds[0].remote);
    var rest := RunRounds(urls, o.marks, rounds[1..], dryRun, baseUrl);
    assert Pause(o.outcome) == [Report(o.outcome.error), Sleep(RoundPause)];
    assert (o.trace + [Report(o.outcome.error), Sleep(RoundPause)] + rest.trace)[|o.trace|] == Report(o.outcome.error);
  }
}
