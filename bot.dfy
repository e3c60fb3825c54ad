/**
 * The bot loop of src/bot/mod.rs: one round (`Bot::post_new_contents`) checks every feed in
 * order and prints or posts what each check returns, stopping at the first error; `run`
 * repeats rounds and decides after each whether to go on. The network and the clock are
 * given as inputs (every feed's download, every post attempt's answer) and what the bot
 * does is recorded as a trace of events.
 */
module BotLoop {
  import opened Wrappers
  import opened Errors
  import opened Text
  import opened Rss
  import opened RssFeed

  /** Attachments of a status: the ids of uploaded media. */
  datatype PostOptions = PostOptions(mediaIds: seq<string>)

  /** How the remote side answers one post attempt: `options()` and then `post_status`. */
  datatype Remote = Remote(options: Result<PostOptions, Error>, status: Outcome<Error>)

  datatype Event =
    /** Dry run: the content is printed instead of posted. */
    | Print(content: Content)
    /** One `post_status` call. */
    | Post(baseUrl: string, body: string, options: Option<PostOptions>)
    | Sleep(ms: nat)
    /** `run` writes a recoverable error to standard error. */
    | Report(error: Error)

  /** Pause after each post, for the instance's rate limit. */
  const PostPause: nat := 500
  /** Pause between rounds. */
  const RoundPause: nat := 30000

  /**
   * The call `Content::post` makes: the status body, and the options, where a failing
   * `options()` becomes "no options" through `.as_ref().ok()`.
   */
  function PostEvent(c: Content, baseUrl: string, options: Result<PostOptions, Error>): Event
  {
    Post(TrimTrailingSlashes(baseUrl), PostBody(c), options.ToOption())
  }

  /** The post carries the status body, and the options exactly when `options()` succeeded. */
  lemma PostEventOptions(c: Content, baseUrl: string, options: Result<PostOptions, Error>)
    ensures var e := PostEvent(c, baseUrl, options);
      && e.Post? && e.body == PostBody(c)
      && (e.options.None? <==> options.Err?)
      && (options.Ok? ==> e.options == Some(options.value))
  {
  }

  /** Events, outcome and post count after handling the contents of one check. */
  datatype Delivery = Delivery(trace: seq<Event>, outcome: Outcome<Error>, posts: nat)

  /**
   * The inner loop of a round over the contents of one check; `k` counts the post attempts
   * made so far in the round, and `remote(k)` answers attempt `k`.
   */
  function Deliver(cs: seq<Content>, dryRun: bool, baseUrl: string, remote: nat -> Remote, k: nat): Delivery
    decreases |cs|
  {
    if cs == [] then Delivery([], Pass, k)
    else if dryRun then
      var rest := Deliver(cs[1..], dryRun, baseUrl, remote, k);
      Delivery([Print(cs[0])] + rest.trace, rest.outcome, rest.posts)
    else
      var post := PostEvent(cs[0], baseUrl, remote(k).options);
      if remote(k).status.Fail? then Delivery([post], remote(k).status, k + 1)
      else
        var rest := Deliver(cs[1..], dryRun, baseUrl, remote, k + 1);
        Delivery([post, Sleep(PostPause)] + rest.trace, rest.outcome, rest.posts)
  }

  /** Events, outcome, new watermark and post count after visiting one feed. */
  datatype Visit = Visit(trace: seq<Event>, outcome: Outcome<Error>, mark: Option<nat>, posts: nat)

  /** One feed of a round, given its check: a failed check ends the visit, else its contents go out. */
  function VisitFeed(c: CheckOut, dryRun: bool, baseUrl: string, remote: nat -> Remote, k: nat): Visit
  {
    if c.result.Err? then Visit([], Fail(c.result.error), c.lastPost, k)
    else
      var d := Deliver(c.result.value, dryRun, baseUrl, remote, k);
      Visit(d.trace, d.outcome, c.lastPost, d.posts)
  }

  /** Events, outcome and the feeds' watermarks after a round. */
  datatype RoundOut = RoundOut(trace: seq<Event>, outcome: Outcome<Error>, marks: seq<Option<nat>>)

  /**
   * The feeds of a round in order, given what each one's check returns: the first failure
   * ends the round, and the feeds after it keep their watermarks.
   */
  function RoundOver(checks: seq<CheckOut>, marks: seq<Option<nat>>, dryRun: bool, baseUrl: string,
                     remote: nat -> Remote, k: nat): (out: RoundOut)
    requires |marks| == |checks|
    ensures |out.marks| == |checks|
    decreases |checks|
  {
    if checks == [] then RoundOut([], Pass, [])
    else
      var v := VisitFeed(checks[0], dryRun, baseUrl, remote, k);
      if v.outcome.Fail? then RoundOut(v.trace, v.outcome, [v.mark] + marks[1..])
      else
        var rest := RoundOver(checks[1..], marks[1..], dryRun, baseUrl, remote, v.posts);
        RoundOut(v.trace + rest.trace, rest.outcome, [v.mark] + rest.marks)
  }

  /** What each feed's check returns; a check depends only on that feed's own watermark. */
  function Checks(urls: seq<Url>, marks: seq<Option<nat>>, fetched: seq<Result<seq<Item>, Error>>): (cs: seq<CheckOut>)
    requires |marks| == |urls| && |fetched| == |urls|
    ensures |cs| == |urls|
  {
    seq(|urls|, i requires 0 <= i < |urls| => CheckSpec(urls[i], marks[i], fetched[i]))
  }

  /** One round over feeds with URLs `urls` and watermarks `marks`; `fetched[i]` is feed i's download. */
  function Round(urls: seq<Url>, marks: seq<Option<nat>>, fetched: seq<Result<seq<Item>, Error>>,
                 dryRun: bool, baseUrl: string, remote: nat -> Remote): (out: RoundOut)
    requires |marks| == |urls| && |fetched| == |urls|
    ensures |out.marks| == |urls|
  {
    RoundOver(Checks(urls, marks, fetched), marks, dryRun, baseUrl, remote, 0)
  }

  /** What `run` does after a round. */
  datatype Next = Continue | Stop(error: Error)

  /** Request and Megalodon errors are reported and the loop goes on; any other error ends the run. */
  function Classify(o: Outcome<Error>): (n: Next)
    ensures n == Continue <==> o.Pass? || o.error.RequestError? || o.error.MegalodonError?
    ensures n.Stop? ==> o.Fail? && n.error == o.error
  {
    match o
    case Pass => Continue
    case Fail(RequestError(_)) => Continue
    case Fail(MegalodonError(_)) => Continue
    case Fail(e) => Stop(e)
  }

  /** The events `run` adds after a round that does not end it. */
  function Pause(o: Outcome<Error>): seq<Event>
  {
    (if o.Fail? then [Report(o.error)] else []) + [Sleep(RoundPause)]
  }

  /** What one round receives from the outside: every feed's download and the post answers. */
  datatype RoundInput = RoundInput(fetched: seq<Result<seq<Item>, Error>>, remote: nat -> Remote)

  datatype RunOut = RunOut(trace: seq<Event>, stopped: Option<Error>, marks: seq<Option<nat>>)

  /** Every round brings one download per feed. */
  predicate Fits(rounds: seq<RoundInput>, feeds: nat)
  {
    forall n :: 0 <= n < |rounds| ==> |rounds[n].fetched| == feeds
  }

  /** `run` over the given rounds; the source loops forever, so the model stops when the inputs end. */
  function RunRounds(urls: seq<Url>, marks: seq<Option<nat>>, rounds: seq<RoundInput>, dryRun: bool, baseUrl: string): (out: RunOut)
    requires |marks| == |urls| && Fits(rounds, |urls|)
    ensures |out.marks| == |urls|
    decreases |rounds|
  {
    if rounds == [] then RunOut([], None, marks)
    else
      var o := Round(urls, marks, rounds[0].fetched, dryRun, baseUrl, rounds[0].remote);
      match Classify(o.outcome)
      case Stop(e) => RunOut(o.trace, Some(e), o.marks)
      case Continue =>
        var rest := RunRounds(urls, o.marks, rounds[1..], dryRun, baseUrl);
        RunOut(o.trace + Pause(o.outcome) + rest.trace, rest.stopped, rest.marks)
  }

  class Bot {
    const feeds: seq<Feed>
    const dryRun: bool
    const baseUrl: string

    /** The configuration owns its feeds: no feed appears twice. */
    ghost predicate Valid()
    {
      forall i, j :: 0 <= i < j < |feeds| ==> feeds[i] != feeds[j]
    }

    /** The feeds' URLs, in order. */
    function Urls(): seq<Url>
    {
      seq(|feeds|, i requires 0 <= i < |feeds| => feeds[i].url)
    }

    /** The feeds' watermarks, in order. */
    function Marks(): seq<Option<nat>>
      reads feeds
    {
      seq(|feeds|, i reads feeds requires 0 <= i < |feeds| => feeds[i].lastPost)
    }

    /** `Bot::new`. */
    constructor (feeds: seq<Feed>, dryRun: bool, baseUrl: string)
      requires forall i, j :: 0 <= i < j < |feeds| ==> feeds[i] != feeds[j]
      ensures Valid() && this.feeds == feeds && this.dryRun == dryRun && this.baseUrl == baseUrl
    {
      this.feeds := feeds;
      this.dryRun := dryRun;
      this.baseUrl := baseUrl;
    }

    /** The inner loop of `post_new_contents` over the contents of one check; `events` is what it prints, posts and sleeps. */
    method DeliverAll(cs: seq<Content>, remote: nat -> Remote, k: nat) returns (events: seq<Event>, outcome: Outcome<Error>, posts: nat)
      ensures Delivery(events, outcome, posts) == Deliver(cs, dryRun, baseUrl, remote, k)
    {
      events := [];
      posts := k;
      var n := 0;
      while n < |cs|
        invariant 0 <= n <= |cs|
        invariant DeliverAfter(cs, dryRun, baseUrl, remote, k, n, events, posts)
      {
        if dryRun {
          DeliverPrintStep(cs, baseUrl, remote, k, n, events, posts);
          events := events + [Print(cs[n])];
        } else {
          var answer := remote(posts);
          var post := PostEvent(cs[n], baseUrl, answer.options);
          DeliverPostStep(cs, baseUrl, remote, k, n, events, posts);
          events := events + [post];
          posts := posts + 1;
          if answer.status.Fail? {
            return events, answer.status, posts;
          }
          events := events + [Sleep(PostPause)];
        }
        n := n + 1;
      }
      assert cs[n..] == [];
      assert events + [] == events;
      return events, Pass, posts;
    }

    /** One pass of the outer loop of `post_new_contents`: `feed.check()?`, then the inner loop. */
    method VisitOne(feed: Feed, fetched: Result<seq<Item>, Error>, remote: nat -> Remote, k: nat, ghost check: CheckOut)
      returns (events: seq<Event>, outcome: Outcome<Error>, posts: nat)
      requires check == CheckSpec(feed.url, feed.lastPost, fetched)
      modifies feed
      ensures Visit(events, outcome, feed.lastPost, posts) == VisitFeed(check, dryRun, baseUrl, remote, k)
    {
      var checked := feed.Check(fetched);
      if checked.Err? {
        return [], Fail(checked.error), k;
      }
      events, outcome, posts := DeliverAll(checked.value, remote, k);
    }

    /**
     * Where a round stands after its first `i` feeds: those have the watermarks `done`, the
     * others still have `m0`, and with events `events` and `k` post attempts so far the rest
     * of the round `goal` is still to come.
     */
    ghost predicate Progress(goal: RoundOut, checks: seq<CheckOut>, m0: seq<Option<nat>>, remote: nat -> Remote,
                             i: nat, events: seq<Event>, done: seq<Option<nat>>, k: nat)
      reads feeds
      requires |checks| == |m0| == |feeds|
    {
      && i <= |feeds| && |done| == i
      && (forall j :: 0 <= j < i ==> feeds[j].lastPost == done[j])
      && (forall j :: i <= j < |feeds| ==> feeds[j].lastPost == m0[j])
      && RoundAfter(goal, checks, m0, dryRun, baseUrl, remote, i, events, done, k)
    }

    /** One pass of the outer loop of `post_new_contents`, on feed `i`. */
    method Advance(fetched: seq<Result<seq<Item>, Error>>, remote: nat -> Remote, i: nat, k: nat, events: seq<Event>,
                   ghost goal: RoundOut, ghost checks: seq<CheckOut>, ghost m0: seq<Option<nat>>, ghost done: seq<Option<nat>>)
      returns (events': seq<Event>, outcome: Outcome<Error>, posts: nat, ghost done': seq<Option<nat>>)
      requires Valid() && |fetched| == |feeds| && |checks| == |m0| == |feeds| && i < |feeds|
      requires checks[i] == CheckSpec(feeds[i].url, m0[i], fetched[i])
      requires Progress(goal, checks, m0, remote, i, events, done, k)
      modifies feeds[i]
      ensures outcome.Fail? ==> goal == RoundOut(events', outcome, Marks())
      ensures outcome.Pass? ==> Progress(goal, checks, m0, remote, i + 1, events', done', posts)
    {
      ghost var v := VisitFeed(checks[i], dryRun, baseUrl, remote, k);
      var more;
      more, outcome, posts := VisitOne(feeds[i], fetched[i], remote, k, checks[i]);
      events' := events + more;
      done' := done + [v.mark];
      if outcome.Fail? {
        RoundFailStep(goal, checks, m0, dryRun, baseUrl, remote, i, events, done, k);
        MarksAfter(done, v.mark, m0, i);
      } else {
        RoundPassStep(goal, checks, m0, dryRun, baseUrl, remote, i, events, done, k);
      }
    }

    /** `Bot::post_new_contents`: one round; the first error ends it. */
    method PostNewContents(fetched: seq<Result<seq<Item>, Error>>, remote: nat -> Remote) returns (events: seq<Event>, r: Outcome<Error>)
      requires Valid() && |fetched| == |feeds|
      modifies feeds
      ensures RoundOut(events, r, Marks()) == Round(Urls(), old(Marks()), fetched, dryRun, baseUrl, remote)
    {
      ghost var m0 := Marks();
      ghost var checks := Checks(Urls(), m0, fetched);
      ghost var goal := RoundOver(checks, m0, dryRun, baseUrl, remote, 0);
      ghost var done: seq<Option<nat>> := [];
      events := [];
      assert checks[0..] == checks && m0[0..] == m0;
      assert goal == Combine(events, done, goal);
      var k := 0;
      var i := 0;
      while i < |feeds|
        invariant Progress(goal, checks, m0, remote, i, events, done, k)
      {
        var outcome;
        events, outcome, k, done := Advance(fetched, remote, i, k, events, goal, checks, m0, done);
        if outcome.Fail? {
          return events, outcome;
        }
        i := i + 1;
      }
      assert checks[i..] == [];
      assert events + [] == events && done + [] == done;
      AllMarks(done);
      return events, Pass;
    }

    /** `run`, over the rounds `rounds`: a fatal error is returned, a recoverable one reported. */
    method Run(rounds: seq<RoundInput>) returns (events: seq<Event>, stopped: Option<Error>)
      requires Valid() && Fits(rounds, |feeds|)
      modifies feeds
      ensures RunOut(events, stopped, Marks()) == RunRounds(Urls(), old(Marks()), rounds, dryRun, baseUrl)
    {
      ghost var goal := RunRounds(Urls(), Marks(), rounds, dryRun, baseUrl);
      events := [];
      assert rounds[0..] == rounds;
      assert goal == RunAfter(events, goal);
      var n := 0;
      while n < |rounds|
        invariant 0 <= n <= |rounds|
        invariant goal == RunAfter(events, RunRounds(Urls(), Marks(), rounds[n..], dryRun, baseUrl))
      {
        ghost var marks := Marks();
        var more, outcome := PostNewContents(rounds[n].fetched, rounds[n].remote);
        match Classify(outcome) {
          case Stop(e) =>
            RunStopStep(goal, events, Urls(), marks, rounds, n, dryRun, baseUrl);
            return events + more, Some(e);
          case Continue =>
            RunPassStep(goal, events, Urls(), marks, rounds, n, dryRun, baseUrl);
            events := events + more + Pause(outcome);
        }
        n := n + 1;
      }
      assert rounds[n..] == [];
      assert events + [] == events;
      return events, None;
    }

    /** The watermarks when a round stops at feed `i`: the feeds before it and it have moved, the rest have not. */
    lemma MarksAfter(done: seq<Option<nat>>, mark: Option<nat>, m0: seq<Option<nat>>, i: nat)
      requires i < |feeds| && |done| == i && |m0| == |feeds|
      requires forall j :: 0 <= j < i ==> feeds[j].lastPost == done[j]
      requires feeds[i].lastPost == mark
      requires forall j :: i < j < |feeds| ==> feeds[j].lastPost == m0[j]
      ensures Marks() == done + [mark] + m0[i + 1..]
    {
      var ms := done + [mark] + m0[i + 1..];
      forall j | 0 <= j < |feeds|
        ensures feeds[j].lastPost == ms[j]
      {
        if j < i {
          assert ms[j] == done[j];
        } else if j == i {
          assert ms[j] == mark;
        } else {
          assert ms[j] == m0[i + 1..][j - i - 1];
        }
      }
      AllMarks(ms);
    }

    /** The watermarks of all feeds, once each is known. */
    lemma AllMarks(ms: seq<Option<nat>>)
      requires |ms| == |feeds| && forall j :: 0 <= j < |feeds| ==> feeds[j].lastPost == ms[j]
      ensures Marks() == ms
    {
    }
  }

  // Loop bookkeeping: what is left of a delivery, a round or a run after a prefix of it.

  /** After `n` contents with trace `acc` and `posts` attempts, the rest of the delivery is still to come. */
  ghost predicate DeliverAfter(cs: seq<Content>, dryRun: bool, baseUrl: string, remote: nat -> Remote,
                               k: nat, n: nat, acc: seq<Event>, posts: nat)
    requires n <= |cs|
  {
    var rest := Deliver(cs[n..], dryRun, baseUrl, remote, posts);
    Deliver(cs, dryRun, baseUrl, remote, k) == Delivery(acc + rest.trace, rest.outcome, rest.posts)
  }

  /** A dry-run step of the delivery loop. */
  lemma DeliverPrintStep(cs: seq<Content>, baseUrl: string, remote: nat -> Remote, k: nat, n: nat, acc: seq<Event>, posts: nat)
    requires n < |cs| && DeliverAfter(cs, true, baseUrl, remote, k, n, acc, posts)
    ensures DeliverAfter(cs, true, baseUrl, remote, k, n + 1, acc + [Print(cs[n])], posts)
  {
    assert cs[n..][0] == cs[n] && cs[n..][1..] == cs[n + 1..];
    var rest := Deliver(cs[n + 1..], true, baseUrl, remote, posts);
    assert Deliver(cs[n..], true, baseUrl, remote, posts) == Delivery([Print(cs[n])] + rest.trace, rest.outcome, rest.posts);
    ConcatAssoc(acc, [Print(cs[n])], rest.trace);
  }

  /** A posting step of the delivery loop: a failed post ends the delivery, a successful one is followed by a pause. */
  lemma DeliverPostStep(cs: seq<Content>, baseUrl: string, remote: nat -> Remote, k: nat, n: nat, acc: seq<Event>, posts: nat)
    requires n < |cs| && DeliverAfter(cs, false, baseUrl, remote, k, n, acc, posts)
    ensures var post := PostEvent(cs[n], baseUrl, remote(posts).options);
      remote(posts).status.Fail? ==>
        Deliver(cs, false, baseUrl, remote, k) == Delivery(acc + [post], remote(posts).status, posts + 1)
    ensures var post := PostEvent(cs[n], baseUrl, remote(posts).options);
      remote(posts).status.Pass? ==>
        DeliverAfter(cs, false, baseUrl, remote, k, n + 1, acc + [post] + [Sleep(PostPause)], posts + 1)
  {
    assert cs[n..][0] == cs[n] && cs[n..][1..] == cs[n + 1..];
    var post := PostEvent(cs[n], baseUrl, remote(posts).options);
    var rest := Deliver(cs[n + 1..], false, baseUrl, remote, posts + 1);
    if remote(posts).status.Pass? {
      assert Deliver(cs[n..], false, baseUrl, remote, posts) == Delivery([post, Sleep(PostPause)] + rest.trace, rest.outcome, rest.posts);
      assert [post, Sleep(PostPause)] == [post] + [Sleep(PostPause)];
      ConcatAssoc(acc, [post] + [Sleep(PostPause)], rest.trace);
      ConcatAssoc(acc, [post], [Sleep(PostPause)]);
    } else {
      assert Deliver(cs[n..], false, baseUrl, remote, posts) == Delivery([post], remote(posts).status, posts + 1);
      assert acc + [post] + [] == acc + [post];
    }
  }

  function Combine(t: seq<Event>, ms: seq<Option<nat>>, rest: RoundOut): RoundOut
  {
    RoundOut(t + rest.trace, rest.outcome, ms + rest.marks)
  }

  /** After the first `i` feeds, with trace `acc`, new watermarks `done` and `k` post attempts, the rest of the round is still to come. */
  ghost predicate RoundAfter(goal: RoundOut, checks: seq<CheckOut>, marks: seq<Option<nat>>,
                             dryRun: bool, baseUrl: string, remote: nat -> Remote,
                             i: nat, acc: seq<Event>, done: seq<Option<nat>>, k: nat)
    requires |marks| == |checks| && i <= |checks|
  {
    goal == Combine(acc, done, RoundOver(checks[i..], marks[i..], dryRun, baseUrl, remote, k))
  }

  /** A feed whose visit fails ends the round; the watermark its check left stays. */
  lemma RoundFailStep(goal: RoundOut, checks: seq<CheckOut>, marks: seq<Option<nat>>,
                      dryRun: bool, baseUrl: string, remote: nat -> Remote,
                      i: nat, acc: seq<Event>, done: seq<Option<nat>>, k: nat)
    requires |marks| == |checks| && i < |checks|
    requires RoundAfter(goal, checks, marks, dryRun, baseUrl, remote, i, acc, done, k)
    requires VisitFeed(checks[i], dryRun, baseUrl, remote, k).outcome.Fail?
    ensures var v := VisitFeed(checks[i], dryRun, baseUrl, remote, k);
      goal == RoundOut(acc + v.trace, v.outcome, done + [v.mark] + marks[i + 1..])
  {
    assert checks[i..][0] == checks[i] && checks[i..][1..] == checks[i + 1..];
    assert marks[i..][1..] == marks[i + 1..];
    var v := VisitFeed(checks[i], dryRun, baseUrl, remote, k);
    assert RoundOver(checks[i..], marks[i..], dryRun, baseUrl, remote, k) == RoundOut(v.trace, v.outcome, [v.mark] + marks[i + 1..]);
    ConcatAssoc(done, [v.mark], marks[i + 1..]);
  }

  /** A feed whose visit succeeds hands the round on to the next feed. */
  lemma RoundPassStep(goal: RoundOut, checks: seq<CheckOut>, marks: seq<Option<nat>>,
                      dryRun: bool, baseUrl: string, remote: nat -> Remote,
                      i: nat, acc: seq<Event>, done: seq<Option<nat>>, k: nat)
    requires |marks| == |checks| && i < |checks|
    requires RoundAfter(goal, checks, marks, dryRun, baseUrl, remote, i, acc, done, k)
    requires VisitFeed(checks[i], dryRun, baseUrl, remote, k).outcome.Pass?
    ensures var v := VisitFeed(checks[i], dryRun, baseUrl, remote, k);
      RoundAfter(goal, checks, marks, dryRun, baseUrl, remote, i + 1, acc + v.trace, done + [v.mark], v.posts)
  {
    assert checks[i..][0] == checks[i] && checks[i..][1..] == checks[i + 1..];
    assert marks[i..][1..] == marks[i + 1..];
    var v := VisitFeed(checks[i], dryRun, baseUrl, remote, k);
    var rest := RoundOver(checks[i + 1..], marks[i + 1..], dryRun, baseUrl, remote, v.posts);
    assert RoundOver(checks[i..], marks[i..], dryRun, baseUrl, remote, k) == RoundOut(v.trace + rest.trace, rest.outcome, [v.mark] + rest.marks);
    ConcatAssoc(acc, v.trace, rest.trace);
    ConcatAssoc(done, [v.mark], rest.marks);
  }

  function RunAfter(acc: seq<Event>, rest: RunOut): RunOut
  {
    RunOut(acc + rest.trace, rest.stopped, rest.marks)
  }

  /** A round whose error is fatal ends the run. */
  lemma RunStopStep(goal: RunOut, acc: seq<Event>, urls: seq<Url>, marks: seq<Option<nat>>,
                    rounds: seq<RoundInput>, n: nat, dryRun: bool, baseUrl: string)
    requires |marks| == |urls| && Fits(rounds, |urls|) && n < |rounds|
    requires goal == RunAfter(acc, RunRounds(urls, marks, rounds[n..], dryRun, baseUrl))
    requires Classify(Round(urls, marks, rounds[n].fetched, dryRun, baseUrl, rounds[n].remote).outcome).Stop?
    ensures var o := Round(urls, marks, rounds[n].fetched, dryRun, baseUrl, rounds[n].remote);
      goal == RunOut(acc + o.trace, Some(o.outcome.error), o.marks)
  {
    assert rounds[n..][0] == rounds[n];
  }

  /** A round that succeeds, or fails recoverably, is followed by the pause and the next round. */
  lemma RunPassStep(goal: RunOut, acc: seq<Event>, urls: seq<Url>, marks: seq<Option<nat>>,
                    rounds: seq<RoundInput>, n: nat, dryRun: bool, baseUrl: string)
    requires |marks| == |urls| && Fits(rounds, |urls|) && n < |rounds|
    requires goal == RunAfter(acc, RunRounds(urls, marks, rounds[n..], dryRun, baseUrl))
    requires Classify(Round(urls, marks, rounds[n].fetched, dryRun, baseUrl, rounds[n].remote).outcome).Continue?
    ensures var o := Round(urls, marks, rounds[n].fetched, dryRun, baseUrl, rounds[n].remote);
      goal == RunAfter(acc + o.trace + Pause(o.outcome), RunRounds(urls, o.marks, rounds[n + 1..], dryRun, baseUrl))
  {
    assert rounds[n..][0] == rounds[n] && rounds[n..][1..] == rounds[n + 1..];
    var o := Round(urls, marks, rounds[n].fetched, dryRun, baseUrl, rounds[n].remote);
    var rest := RunRounds(urls, o.marks, rounds[n + 1..], dryRun, baseUrl);
    ConcatAssoc(acc, o.trace + Pause(o.outcome), rest.trace);
    ConcatAssoc(acc, o.trace, Pause(o.outcome));
  }
}
