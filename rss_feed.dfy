/**
 * The feed watermark tracker of src/bot/rss.rs: `Feed::new` and `Feed::check`.
 *
 * `check` first pairs every item, in reversed feed order, with its parsed date and collects
 * the pairs eagerly, so one bad date fails the whole check before anything else happens.
 * It then walks the pairs lazily: the filter keeps a pair when its date is strictly later than
 * the current `last_post` and moves `last_post` to it, and the map turns each kept item into a
 * `Content`, stopping at the first item with a missing field. The kept items are the strict
 * running maxima of the reversed dates above the initial watermark.
 */
module RssFeed {
  import opened Wrappers
  import opened Errors
  import opened Text
  import opened Rss

  /** An item with its parsed date: one element of the vector the date pass collects. */
  datatype Dated = Dated(date: nat, item: Item)

  /** What a check returns, together with the watermark it leaves behind. */
  datatype CheckOut = CheckOut(result: Result<seq<Content>, Error>, lastPost: Option<nat>)

  function Reverse<T>(s: seq<T>): (r: seq<T>)
    ensures |r| == |s|
    ensures forall i :: 0 <= i < |s| ==> r[i] == s[|s| - 1 - i]
    decreases |s|
  {
    if s == [] then [] else Reverse(s[1..]) + [s[0]]
  }

  function DateError(url: Url, d: DateStatus): Error
    requires !d.Valid?
  {
    if d.Missing? then NoPublishDate(url) else InvalidPublishDate(url)
  }

  /** Item `i` is the first, in visiting order, without a valid date. */
  predicate FirstInvalid(rs: seq<Item>, i: nat)
    requires i < |rs|
  {
    !rs[i].pubDate.Valid? && forall j :: 0 <= j < i ==> rs[j].pubDate.Valid?
  }

  /**
   * The date pass, over the items in the order visited: the first item without a valid date
   * decides the error; otherwise every item is paired with its timestamp.
   */
  function DatePass(url: Url, rs: seq<Item>): Result<seq<Dated>, Error>
    decreases |rs|
  {
    if rs == [] then Ok([])
    else match rs[0].pubDate
      case Missing => Err(NoPublishDate(url))
      case Invalid => Err(InvalidPublishDate(url))
      case Valid(n) => PrependDated([Dated(n, rs[0])], DatePass(url, rs[1..]))
  }

  function PrependDated(es: seq<Dated>, r: Result<seq<Dated>, Error>): Result<seq<Dated>, Error>
  {
    match r
    case Ok(t) => Ok(es + t)
    case Err(_) => r
  }

  /**
   * The date pass succeeds exactly when every date is valid, and then pairs each item with its
   * timestamp; otherwise its error comes from the first item without a valid date.
   */
  lemma {:induction false} DatePassSpec(url: Url, rs: seq<Item>)
    ensures var r := DatePass(url, rs);
      && (r.Ok? <==> forall i :: 0 <= i < |rs| ==> rs[i].pubDate.Valid?)
      && (r.Ok? ==>
        && |r.value| == |rs|
        && forall i :: 0 <= i < |rs| ==> r.value[i] == Dated(rs[i].pubDate.timestamp, rs[i]))
      && (r.Err? ==>
        exists i :: 0 <= i < |rs| && FirstInvalid(rs, i) && r.error == DateError(url, rs[i].pubDate))
    decreases |rs|
  {
    if rs != [] {
      if rs[0].pubDate.Valid? {
        var tail := rs[1..];
        DatePassSpec(url, tail);
        var rest := DatePass(url, tail);
        if rest.Err? {
          var i :| 0 <= i < |tail| && FirstInvalid(tail, i) && rest.error == DateError(url, tail[i].pubDate);
          assert FirstInvalid(rs, i + 1);
          var b := i + 1;
          assert !rs[b].pubDate.Valid?;
        } else {
          var r := [Dated(rs[0].pubDate.timestamp, rs[0])] + rest.value;
          assert forall i :: 0 < i < |rs| ==> r[i] == rest.value[i - 1] && rs[i] == tail[i - 1];
        }
      } else {
        assert FirstInvalid(rs, 0);
      }
    }
  }

  /** One item of the date pass: a bad date ends it, a good one is paired and the pass goes on. */
  lemma DatePassStep(url: Url, rs: seq<Item>, k: nat)
    requires k < |rs|
    ensures !rs[k].pubDate.Valid? ==> DatePass(url, rs[k..]) == Err(DateError(url, rs[k].pubDate))
    ensures rs[k].pubDate.Valid? ==>
      DatePass(url, rs[k..]) == PrependDated([Dated(rs[k].pubDate.timestamp, rs[k])], DatePass(url, rs[k + 1..]))
  {
    assert rs[k..][0] == rs[k] && rs[k..][1..] == rs[k + 1..];
  }

  lemma PrependDatedTwice(a: seq<Dated>, b: seq<Dated>, r: Result<seq<Dated>, Error>)
    ensures PrependDated(a, PrependDated(b, r)) == PrependDated(a + b, r)
  {
    if r.Ok? {
      ConcatAssoc(a, b, r.value);
    }
  }

  /** The filter's test: `last_post` is unset or the date is strictly later. */
  predicate IsNew(w: Option<nat>, d: nat)
  {
    w.None? || d > w.value
  }

  /** The watermark after the filter has looked at one date. */
  function Step(w: Option<nat>, d: nat): Option<nat>
  {
    if IsNew(w, d) then Some(d) else w
  }

  /** The pairs the filter keeps, starting from watermark `w`. */
  function Selected(w: Option<nat>, es: seq<Dated>): seq<Dated>
    decreases |es|
  {
    if es == [] then []
    else if IsNew(w, es[0].date) then [es[0]] + Selected(Step(w, es[0].date), es[1..])
    else Selected(w, es[1..])
  }

  /** The watermark after the filter has looked at every pair. */
  function Mark(w: Option<nat>, es: seq<Dated>): Option<nat>
    decreases |es|
  {
    if es == [] then w else Mark(Step(w, es[0].date), es[1..])
  }

  /** Contents built so far, in front of what the rest of the walk returns. */
  function Prepend(cs: seq<Content>, o: CheckOut): CheckOut
  {
    match o.result
    case Ok(t) => CheckOut(Ok(cs + t), o.lastPost)
    case Err(_) => o
  }

  /** The lazy filter-map-collect walk: stops at the first kept item that has a missing field. */
  function Walk(url: Url, w: Option<nat>, es: seq<Dated>): CheckOut
    decreases |es|
  {
    if es == [] then CheckOut(Ok([]), w)
    else if IsNew(w, es[0].date) then
      match ToContent(url, es[0].item)
      case Err(e) => CheckOut(Err(e), Some(es[0].date))
      case Ok(c) => Prepend([c], Walk(url, Some(es[0].date), es[1..]))
    else Walk(url, w, es[1..])
  }

  /**
   * A whole check. `fetched` is the outcome of downloading and parsing the feed, whose
   * `RequestError` or `RssError` is passed on as it is.
   */
  function CheckSpec(url: Url, w: Option<nat>, fetched: Result<seq<Item>, Error>): CheckOut
  {
    match fetched
    case Err(e) => CheckOut(Err(e), w)
    case Ok(items) =>
      match DatePass(url, Reverse(items))
      case Err(e) => CheckOut(Err(e), w)
      case Ok(es) => Walk(url, w, es)
  }

  /** The date pass of `Feed::check` as its loop runs: items from last to first. */
  method CollectDates(url: Url, items: seq<Item>) returns (r: Result<seq<Dated>, Error>)
    ensures r == DatePass(url, Reverse(items))
  {
    ghost var rs := Reverse(items);
    var es: seq<Dated> := [];
    var k := 0;
    assert rs[k..] == rs;
    assert PrependDated(es, DatePass(url, rs)) == DatePass(url, rs) by {
      if DatePass(url, rs).Ok? {
        assert es + DatePass(url, rs).value == DatePass(url, rs).value;
      }
    }
    while k < |items|
      invariant 0 <= k <= |items| && |rs| == |items|
      invariant DatePass(url, rs) == PrependDated(es, DatePass(url, rs[k..]))
    {
      var item := items[|items| - 1 - k];
      assert rs[k] == item;
      DatePassStep(url, rs, k);
      match item.pubDate {
        case Missing => return Err(NoPublishDate(url));
        case Invalid => return Err(InvalidPublishDate(url));
        case Valid(n) =>
          PrependDatedTwice(es, [Dated(n, item)], DatePass(url, rs[k + 1..]));
          es := es + [Dated(n, item)];
      }
      k := k + 1;
    }
    assert rs[k..] == [] && es + [] == es;
    return Ok(es);
  }

  class Feed {
    const url: Url
    /** Timestamp of the newest item already handed out, if any. */
    var lastPost: Option<nat>

    /** `Feed::new`; `now` is the clock reading `Utc::now().timestamp()`. */
    constructor (url: Url, onlyNew: bool, now: nat)
      ensures this.url == url
      ensures lastPost == if onlyNew then Some(now) else None
    {
      this.url := url;
      lastPost := if onlyNew then Some(now) else None;
    }

    /** `Feed::check` on the downloaded and parsed feed `fetched`. */
    method Check(fetched: Result<seq<Item>, Error>) returns (r: Result<seq<Content>, Error>)
      modifies this
      ensures CheckOut(r, lastPost) == CheckSpec(url, old(lastPost), fetched)
    {
      if fetched.Err? {
        return Err(fetched.error);
      }
      // Date pass: collected eagerly, so any date error aborts here.
      var dated := CollectDates(url, fetched.value);
      if dated.Err? {
        return Err(dated.error);
      }
      var es := dated.value;
      // Filter, map and collect: the filter moves the watermark, the map may fail.
      var contents: seq<Content> := [];
      var j := 0;
      assert es[j..] == es;
      assert Prepend(contents, Walk(url, lastPost, es)) == Walk(url, lastPost, es) by {
        if Walk(url, lastPost, es).result.Ok? {
          assert contents + Walk(url, lastPost, es).result.value == Walk(url, lastPost, es).result.value;
        }
      }
      while j < |es|
        invariant 0 <= j <= |es|
        invariant Walk(url, old(lastPost), es) == Prepend(contents, Walk(url, lastPost, es[j..]))
      {
        var e := es[j];
        assert es[j..][0] == e && es[j..][1..] == es[j + 1..];
        var status := if lastPost.Some? then e.date > lastPost.value else true;
        if status {
          ghost var before := lastPost;
          lastPost := Some(e.date);
          var c := ToContent(url, e.item);
          if c.Err? {
            assert Walk(url, before, es[j..]) == CheckOut(Err(c.error), lastPost);
            return Err(c.error);
          }
          ghost var rest := Walk(url, lastPost, es[j + 1..]);
          assert Walk(url, before, es[j..]) == Prepend([c.value], rest);
          if rest.result.Ok? {
            assert contents + ([c.value] + rest.result.value) == (contents + [c.value]) + rest.result.value;
          }
          contents := contents + [c.value];
        }
        j := j + 1;
      }
      assert es[j..] == [] && contents + [] == contents;
      return Ok(contents);
    }
  }

  // ---------------------------------------------------------------- properties of a check

  /** Every kept date is new against the starting watermark and later than the kept one before it. */
  lemma {:induction false} SelectedIncreasing(w: Option<nat>, es: seq<Dated>)
    ensures forall k :: 0 <= k < |Selected(w, es)| ==> IsNew(w, Selected(w, es)[k].date)
    ensures forall a, b :: 0 <= a < b < |Selected(w, es)| ==> Selected(w, es)[a].date < Selected(w, es)[b].date
    decreases |es|
  {
    if es != [] {
      var d := es[0].date;
      SelectedIncreasing(Step(w, d), es[1..]);
      if IsNew(w, d) {
        var tail := Selected(Some(d), es[1..]);
        assert Selected(w, es) == [es[0]] + tail;
        assert forall k :: 0 <= k < |tail| ==> tail[k].date > d;
      }
    }
  }

  /**
   * The watermark left by the filter is the largest of the starting watermark and all dates;
   * it is unset only when it started unset and there was nothing to look at.
   */
  lemma {:induction false} MarkIsMax(w: Option<nat>, es: seq<Dated>)
    ensures Mark(w, es).None? <==> w.None? && es == []
    ensures Mark(w, es).Some? ==>
      && (w.Some? ==> w.value <= Mark(w, es).value)
      && (forall i :: 0 <= i < |es| ==> es[i].date <= Mark(w, es).value)
      && (w == Mark(w, es) || exists i :: 0 <= i < |es| && es[i].date == Mark(w, es).value)
    decreases |es|
  {
    if es != [] {
      var w' := Step(w, es[0].date);
      MarkIsMax(w', es[1..]);
      var m := Mark(w, es);
      assert m == Mark(w', es[1..]);
      forall i | 0 <= i < |es| ensures es[i].date <= m.value {
        if i > 0 {
          assert es[i] == es[1..][i - 1];
        }
      }
      if w' != m {
        var i :| 0 <= i < |es[1..]| && es[1..][i].date == m.value;
        assert es[i + 1].date == m.value;
      } else if w' != w {
        assert es[0].date == m.value;
      }
    }
  }

  lemma {:induction false} SelectedAppend(w: Option<nat>, p: seq<Dated>, x: Dated)
    ensures Selected(w, p + [x]) == Selected(w, p) + (if IsNew(Mark(w, p), x.date) then [x] else [])
    decreases |p|
  {
    if p == [] {
      assert p + [x] == [x];
    } else {
      assert (p + [x])[0] == p[0] && (p + [x])[1..] == p[1..] + [x];
      SelectedAppend(Step(w, p[0].date), p[1..], x);
    }
  }

  /** Pair `i` is a strict record: new against the watermark and later than every pair before it. */
  predicate IsRecord(w: Option<nat>, es: seq<Dated>, i: nat)
    requires i < |es|
  {
    IsNew(w, es[i].date) && forall j :: 0 <= j < i ==> es[j].date < es[i].date
  }

  /** The filter keeps exactly the strict records, in visiting order. */
  lemma SelectedRecords(w: Option<nat>, es: seq<Dated>, i: nat)
    requires i < |es|
    ensures Selected(w, es[..i + 1]) == Selected(w, es[..i]) + (if IsRecord(w, es, i) then [es[i]] else [])
  {
    var p := es[..i];
    assert es[..i + 1] == p + [es[i]];
    SelectedAppend(w, p, es[i]);
    MarkIsMax(w, p);
    if Mark(w, p).Some? && !IsNew(Mark(w, p), es[i].date) {
      var m := Mark(w, p).value;
      if w != Mark(w, p) {
        var j :| 0 <= j < |p| && p[j].date == m;
        assert !(es[j].date < es[i].date);
      }
    }
  }

  /** A walk succeeds exactly when every kept item has its fields; it then returns their contents. */
  lemma {:induction false} WalkOk(url: Url, w: Option<nat>, es: seq<Dated>)
    ensures var o := Walk(url, w, es); var sel := Selected(w, es);
      && (o.result.Ok? <==> forall k :: 0 <= k < |sel| ==> ToContent(url, sel[k].item).Ok?)
      && (o.result.Ok? ==>
        && |o.result.value| == |sel|
        && (forall k :: 0 <= k < |sel| ==> ToContent(url, sel[k].item) == Ok(o.result.value[k]))
        && o.lastPost == Mark(w, es))
    decreases |es|
  {
    if es != [] {
      var d := es[0].date;
      WalkOk(url, Step(w, d), es[1..]);
      if IsNew(w, d) {
        var sel := Selected(w, es);
        var tail := Selected(Some(d), es[1..]);
        assert sel == [es[0]] + tail;
        match ToContent(url, es[0].item)
        case Err(e) =>
          assert !ToContent(url, sel[0].item).Ok?;
        case Ok(c) =>
          var rest := Walk(url, Some(d), es[1..]);
          if rest.result.Ok? {
            assert Walk(url, w, es).result.value == [c] + rest.result.value;
          } else {
            var k :| 0 <= k < |tail| && !ToContent(url, tail[k].item).Ok?;
            assert sel[k + 1] == tail[k];
          }
      }
    }
  }

  /**
   * A failing walk stopped at a kept item with a missing field, after every earlier kept item
   * succeeded; the watermark had already moved to that item's date and went no further.
   */
  lemma {:induction false} WalkErr(url: Url, w: Option<nat>, es: seq<Dated>)
    requires Walk(url, w, es).result.Err?
    ensures exists k ::
      && 0 <= k < |Selected(w, es)|
      && (forall j :: 0 <= j < k ==> ToContent(url, Selected(w, es)[j].item).Ok?)
      && ToContent(url, Selected(w, es)[k].item) == Err(Walk(url, w, es).result.error)
      && Walk(url, w, es).lastPost == Some(Selected(w, es)[k].date)
    decreases |es|
  {
    var d := es[0].date;
    if IsNew(w, d) {
      var sel := Selected(w, es);
      var tail := Selected(Some(d), es[1..]);
      assert sel == [es[0]] + tail;
      if ToContent(url, es[0].item).Ok? {
        WalkErr(url, Some(d), es[1..]);
        var k :|
          && 0 <= k < |tail|
          && (forall j :: 0 <= j < k ==> ToContent(url, tail[j].item).Ok?)
          && ToContent(url, tail[k].item) == Err(Walk(url, Some(d), es[1..]).result.error)
          && Walk(url, Some(d), es[1..]).lastPost == Some(tail[k].date);
        assert sel[k + 1] == tail[k];
        assert forall j :: 0 < j < k + 1 ==> sel[j] == tail[j - 1];
      } else {
        assert ToContent(url, sel[0].item) == Err(Walk(url, w, es).result.error);
      }
    } else {
      assert Selected(w, es) == Selected(w, es[1..]);
      assert Walk(url, w, es) == Walk(url, w, es[1..]);
      WalkErr(url, w, es[1..]);
    }
  }

  /** Against a watermark no date exceeds, a walk keeps nothing and leaves the watermark alone. */
  lemma {:induction false} WalkQuiet(url: Url, m: Option<nat>, es: seq<Dated>)
    requires m.Some? && forall i :: 0 <= i < |es| ==> es[i].date <= m.value
    ensures Walk(url, m, es) == CheckOut(Ok([]), m)
    decreases |es|
  {
    if es != [] {
      assert forall i :: 0 <= i < |es[1..]| ==> es[1..][i] == es[i + 1];
      WalkQuiet(url, m, es[1..]);
    }
  }

  /** Checking the same items again right after a successful check finds nothing new. */
  lemma CheckTwice(url: Url, w: Option<nat>, fetched: Result<seq<Item>, Error>)
    requires CheckSpec(url, w, fetched).result.Ok?
    ensures var w' := CheckSpec(url, w, fetched).lastPost;
      CheckSpec(url, w', fetched) == CheckOut(Ok([]), w')
  {
    var es := DatePass(url, Reverse(fetched.value)).value;
    WalkOk(url, w, es);
    MarkIsMax(w, es);
    if es != [] {
      WalkQuiet(url, Mark(w, es), es);
    }
  }

  /**
   * After a successful check the watermark is unset only if it was unset and the feed had no
   * items; otherwise it is the largest of the old watermark and every item's date.
   */
  lemma CheckWatermark(url: Url, w: Option<nat>, items: seq<Item>)
    requires CheckSpec(url, w, Ok(items)).result.Ok?
    ensures var m := CheckSpec(url, w, Ok(items)).lastPost;
      && (m.None? <==> w.None? && items == [])
      && (m.Some? ==>
        && (w.Some? ==> w.value <= m.value)
        && (forall i :: 0 <= i < |items| ==> items[i].pubDate.Valid? && items[i].pubDate.timestamp <= m.value)
        && (w == m || exists i :: 0 <= i < |items| && items[i].pubDate == Valid(m.value)))
  {
    var rs := Reverse(items);
    DatePassSpec(url, rs);
    var es := DatePass(url, rs).value;
    WalkOk(url, w, es);
    MarkIsMax(w, es);
    var m := Mark(w, es);
    if m.Some? {
      forall i | 0 <= i < |items|
        ensures items[i].pubDate.Valid? && items[i].pubDate.timestamp <= m.value
      {
        assert rs[|items| - 1 - i] == items[i];
        assert items[i].pubDate.Valid? && es[|items| - 1 - i].date == items[i].pubDate.timestamp;
      }
      if w != m {
        var i :| 0 <= i < |es| && es[i].date == m.value;
        assert items[|items| - 1 - i] == rs[i];
      }
    }
  }

  /** The watermark never moves backwards, whatever the outcome of the check. */
  lemma CheckMonotone(url: Url, w: Option<nat>, fetched: Result<seq<Item>, Error>)
    requires w.Some?
    ensures CheckSpec(url, w, fetched).lastPost.Some?
    ensures CheckSpec(url, w, fetched).lastPost.value >= w.value
  {
    if fetched.Ok? && DatePass(url, Reverse(fetched.value)).Ok? {
      var es := DatePass(url, Reverse(fetched.value)).value;
      if Walk(url, w, es).result.Ok? {
        WalkOk(url, w, es);
        MarkIsMax(w, es);
      } else {
        WalkErr(url, w, es);
        SelectedIncreasing(w, es);
      }
    }
  }

  lemma FirstInvalidUnique(rs: seq<Item>, i: nat, i': nat)
    requires i < |rs| && i' < |rs| && FirstInvalid(rs, i) && FirstInvalid(rs, i')
    ensures i == i'
  {
  }

  /**
   * A bad date fails the whole check: the first bad item in reversed feed order decides
   * between NoPublishDate and InvalidPublishDate, and the watermark is left unchanged.
   */
  lemma CheckDateError(url: Url, w: Option<nat>, items: seq<Item>, i: nat)
    requires i < |items| && FirstInvalid(Reverse(items), i)
    ensures CheckSpec(url, w, Ok(items)) == CheckOut(Err(DateError(url, Reverse(items)[i].pubDate)), w)
  {
    var rs := Reverse(items);
    DatePassSpec(url, rs);
    var r := DatePass(url, rs);
    assert !rs[i].pubDate.Valid?;
    assert r.Err?;
    var i' :| 0 <= i' < |rs| && FirstInvalid(rs, i') && r.error == DateError(url, rs[i'].pubDate);
    FirstInvalidUnique(rs, i, i');
  }

  /**
   * When the dates rise strictly in visiting order and the first one is new, every item is
   * kept and the watermark ends at the last date.
   */
  lemma {:induction false} IncreasingAllKept(w: Option<nat>, es: seq<Dated>)
    requires es != [] ==> IsNew(w, es[0].date)
    requires forall a, b :: 0 <= a < b < |es| ==> es[a].date < es[b].date
    ensures Selected(w, es) == es
    ensures Mark(w, es) == if es == [] then w else Some(es[|es| - 1].date)
    decreases |es|
  {
    if es != [] {
      var tail := es[1..];
      var w' := Step(w, es[0].date);
      assert w' == Some(es[0].date);
      assert Selected(w, es) == [es[0]] + Selected(w', tail);
      assert Mark(w, es) == Mark(w', tail);
      forall a, b | 0 <= a < b < |tail|
        ensures tail[a].date < tail[b].date
      {
        assert tail[a] == es[a + 1] && tail[b] == es[b + 1];
      }
      if tail != [] {
        assert tail[0] == es[1];
        assert tail[|tail| - 1] == es[|es| - 1];
      }
      IncreasingAllKept(w', tail);
      assert es == [es[0]] + tail;
    }
  }
}
