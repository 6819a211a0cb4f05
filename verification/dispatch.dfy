/**
 * The search loop: for each sample point, the first request and up to
 * `MaxPages` page iterations following the service's pagination cursor,
 * each page merged into the running aggregate; the aggregate budget is
 * checked after each point.
 */
module Dispatch {
  import opened Wrappers
  import opened Places
  import opened Dedup
  import opened Planner

  /** A decoded service answer: `local_results` present (possibly empty), or no usable results. */
  datatype Response = NoLocalResults | LocalResults(places: seq<Place>)

  /**
   * What the service does for one point. `Feed(first, next)`: the first
   * request answers `first`, the k-th `get_next()` answers `next[k-1]`, and
   * the call after the last scripted answer raises. `FirstRequestFails`: the
   * first request raises.
   */
  datatype Feed = Feed(first: Response, next: seq<Response>) | FirstRequestFails

  const MaxPages: nat := 6
  /** A page with fewer records than this is taken to be the last one. */
  const FullPage: nat := 20
  const MaxResults: nat := 100
  /** Dispatch to further points stops once the aggregate holds this many records. */
  const Budget: nat := MaxResults * 2

  datatype StopReason = NoResults | EmptyPage | ShortPage | NextFailed | PageLimit

  /** The aggregate after one point, how many pages were merged, and why the loop ended. */
  datatype PointRun = PointRun(places: seq<Place>, pages: nat, stop: StopReason)

  function PageOf(r: Response): seq<Place> {
    if r.LocalResults? then r.places else []
  }

  /** The records of a run of responses, concatenated in order. */
  function Flatten(rs: seq<Response>): seq<Place> {
    if rs == [] then [] else PageOf(rs[0]) + Flatten(rs[1..])
  }

  /**
   * The page loop of one point. `rs[0]` is the answer in hand, `rs[1..]`
   * the answers later `get_next()` calls return; `budget` page iterations
   * remain.
   */
  function Paginate(acc: seq<Place>, rs: seq<Response>, budget: nat): (run: PointRun)
    requires |rs| >= 1
    ensures run.pages <= budget && run.pages <= |rs|
    decreases budget
  {
    if budget == 0 then PointRun(acc, 0, PageLimit)
    else
      match rs[0]
      case NoLocalResults => PointRun(acc, 0, NoResults)
      case LocalResults(ps) =>
        if |ps| == 0 then PointRun(acc, 0, EmptyPage)
        else
          var merged := Merge(acc, ps);
          if |ps| < FullPage then PointRun(merged, 1, ShortPage)
          else if |rs| == 1 then PointRun(merged, 1, NextFailed)
          else
            var run := Paginate(merged, rs[1..], budget - 1);
            PointRun(run.places, run.pages + 1, run.stop)
  }

  /**
   * Why a point's loop ends. Every consumed page had records, every one but
   * the last was full, and the stop reason matches the response that caused
   * it: no `local_results`, an empty page, a short page (merged before
   * stopping), a failing `get_next()` after a full page, or the page budget.
   */
  lemma {:induction false} PaginateStops(acc: seq<Place>, rs: seq<Response>, budget: nat)
    requires |rs| >= 1
    ensures var run := Paginate(acc, rs, budget);
            && (forall k :: 0 <= k < run.pages ==> rs[k].LocalResults? && |rs[k].places| > 0)
            && (forall k :: 0 <= k < run.pages - 1 ==> |rs[k].places| >= FullPage)
            && (run.stop == NoResults ==> run.pages < budget && run.pages < |rs| && rs[run.pages].NoLocalResults?)
            && (run.stop == EmptyPage ==> run.pages < budget && run.pages < |rs| && rs[run.pages] == LocalResults([]))
            && (run.stop == ShortPage ==> run.pages >= 1 && |rs[run.pages - 1].places| < FullPage)
            && (run.stop == NextFailed ==> run.pages == |rs| && |rs[run.pages - 1].places| >= FullPage)
            && (run.stop == PageLimit ==> run.pages == budget)
    decreases budget
  {
    if budget > 0 && rs[0].LocalResults? && |rs[0].places| >= FullPage && |rs| > 1 {
      var merged := Merge(acc, rs[0].places);
      var sub := Paginate(merged, rs[1..], budget - 1);
      assert Paginate(acc, rs, budget) == PointRun(sub.places, sub.pages + 1, sub.stop);
      PaginateStops(merged, rs[1..], budget - 1);
      assert forall k :: 1 <= k < |rs| ==> rs[k] == rs[1..][k - 1];
    }
  }

  /** A point's contribution is the merge of exactly the pages its loop consumed. */
  lemma {:induction false} PaginateMergesConsumedPages(acc: seq<Place>, rs: seq<Response>, budget: nat)
    requires |rs| >= 1
    ensures Paginate(acc, rs, budget).places == Merge(acc, Flatten(rs[..Paginate(acc, rs, budget).pages]))
    decreases budget, 1
  {
    var run := Paginate(acc, rs, budget);
    if run.pages == 0 {
      assert run.places == acc;
      assert rs[..0] == [];
    } else if |rs[0].places| < FullPage || |rs| == 1 {
      LastPageMerged(acc, rs, budget);
    } else {
      FullPageMerged(acc, rs, budget);
    }
  }

  lemma {:induction false} FullPageMerged(acc: seq<Place>, rs: seq<Response>, budget: nat)
    requires |rs| >= 2 && budget > 0
    requires rs[0].LocalResults? && |rs[0].places| >= FullPage
    ensures Paginate(acc, rs, budget).places == Merge(acc, Flatten(rs[..Paginate(acc, rs, budget).pages]))
    decreases budget, 0
  {
    var merged := Merge(acc, rs[0].places);
    var sub := Paginate(merged, rs[1..], budget - 1);
    var run := Paginate(acc, rs, budget);
    assert run == PointRun(sub.places, sub.pages + 1, sub.stop);
    PaginateMergesConsumedPages(merged, rs[1..], budget - 1);
    assert sub.places == Merge(merged, Flatten(rs[1..][..sub.pages]));
    NextPageMerged(acc, rs, sub.pages);
    assert sub.places == Merge(acc, Flatten(rs[..sub.pages + 1]));
  }

  lemma LastPageMerged(acc: seq<Place>, rs: seq<Response>, budget: nat)
    requires |rs| >= 1 && budget > 0
    requires rs[0].LocalResults? && |rs[0].places| > 0
    requires |rs[0].places| < FullPage || |rs| == 1
    ensures Paginate(acc, rs, budget).places == Merge(acc, Flatten(rs[..1]))
  {
    FlattenCons(rs[0], []);
    assert rs[..1] == [rs[0]] + [];
    assert rs[0].places + [] == rs[0].places;
  }

  lemma NextPageMerged(acc: seq<Place>, rs: seq<Response>, n: nat)
    requires |rs| >= 2 && n < |rs|
    requires rs[0].LocalResults?
    ensures Merge(Merge(acc, rs[0].places), Flatten(rs[1..][..n])) == Merge(acc, Flatten(rs[..n + 1]))
  {
    assert rs[..n + 1] == [rs[0]] + rs[1..][..n];
    FlattenCons(rs[0], rs[1..][..n]);
    MergeConcat(acc, rs[0].places, Flatten(rs[1..][..n]));
  }

  lemma FlattenCons(r: Response, rs: seq<Response>)
    ensures Flatten([r] + rs) == PageOf(r) + Flatten(rs)
  {
    assert ([r] + rs)[1..] == rs;
  }

  lemma PaginateKeepsKeysUnique(acc: seq<Place>, rs: seq<Response>, budget: nat)
    requires |rs| >= 1
    requires UniqueKeys(acc)
    ensures UniqueKeys(Paginate(acc, rs, budget).places)
    ensures |Paginate(acc, rs, budget).places| >= |acc|
    ensures Paginate(acc, rs, budget).places[..|acc|] == acc
  {
    var run := Paginate(acc, rs, budget);
    PaginateMergesConsumedPages(acc, rs, budget);
    MergeKeepsKeysUnique(acc, Flatten(rs[..run.pages]));
    MergeExtends(acc, Flatten(rs[..run.pages]));
  }

  /** An exception from a point's first request; it aborts the whole search. */
  datatype DispatchError = FirstRequestRaised(point: nat)

  /** The aggregate and how many points were searched. */
  datatype Aggregate = Aggregate(places: seq<Place>, searched: nat)

  /** The loop over search points: each point fully paginated, then the budget checked. */
  function DispatchPoints(acc: seq<Place>, points: seq<SamplePoint>, service: SamplePoint -> Feed): (r: Result<Aggregate, DispatchError>)
    ensures r.Success? ==> r.value.searched <= |points|
    ensures r.Success? ==> (r.value.searched == 0 <==> points == [])
    ensures r.Success? && r.value.searched < |points| ==> |r.value.places| >= Budget
    ensures r.Failure? ==> r.error.point < |points| && service(points[r.error.point]).FirstRequestFails?
    decreases |points|
  {
    if points == [] then Success(Aggregate(acc, 0))
    else
      match service(points[0])
      case FirstRequestFails => Failure(FirstRequestRaised(0))
      case Feed(first, next) =>
        var run := Paginate(acc, [first] + next, MaxPages);
        if |run.places| >= Budget then Success(Aggregate(run.places, 1))
        else
          match DispatchPoints(run.places, points[1..], service)
          case Success(a) => Success(Aggregate(a.places, a.searched + 1))
          case Failure(e) => Failure(FirstRequestRaised(e.point + 1))
  }

  /** No aggregate ever holds two records with one key, and records already gathered are never changed or moved. */
  lemma {:induction false} DispatchKeepsKeysUnique(acc: seq<Place>, points: seq<SamplePoint>, service: SamplePoint -> Feed)
    requires UniqueKeys(acc)
    ensures var r := DispatchPoints(acc, points, service);
            r.Success? ==> UniqueKeys(r.value.places) && |r.value.places| >= |acc| && r.value.places[..|acc|] == acc
    decreases |points|
  {
    if points != [] && service(points[0]).Feed? {
      var feed := service(points[0]);
      var run := Paginate(acc, [feed.first] + feed.next, MaxPages);
      PaginateKeepsKeysUnique(acc, [feed.first] + feed.next, MaxPages);
      if |run.places| < Budget {
        DispatchKeepsKeysUnique(run.places, points[1..], service);
        var r := DispatchPoints(run.places, points[1..], service);
        if r.Success? {
          assert r.value.places[..|acc|] == r.value.places[..|run.places|][..|acc|];
        }
      }
    }
  }

  // ---------------------------------------------------------------------------
  // Reference reading of the point loop
  // ---------------------------------------------------------------------------

  /**
   * The aggregate after one point's page loop. A point whose first request
   * raises contributes nothing here; `DispatchPoints` aborts on it instead.
   */
  function RunPoint(acc: seq<Place>, feed: Feed): seq<Place> {
    if feed.Feed? then Paginate(acc, [feed.first] + feed.next, MaxPages).places else acc
  }

  /** The aggregate after running the first `n` points one after another, with no budget check. */
  function Gathered(acc: seq<Place>, points: seq<SamplePoint>, service: SamplePoint -> Feed, n: nat): seq<Place>
    requires n <= |points|
  {
    if n == 0 then acc else RunPoint(Gathered(acc, points, service, n - 1), service(points[n - 1]))
  }

  /** Running the first point and then the next n is running the first n + 1. */
  lemma {:induction false} GatheredShift(acc: seq<Place>, points: seq<SamplePoint>, service: SamplePoint -> Feed, n: nat)
    requires n + 1 <= |points|
    ensures Gathered(acc, points, service, n + 1)
      == Gathered(RunPoint(acc, service(points[0])), points[1..], service, n)
  {
    if n > 0 {
      GatheredShift(acc, points, service, n - 1);
      assert points[1..][n - 1] == points[n];
    }
  }

  /**
   * A successful point loop against the reference fold: the aggregate is the
   * fold over the searched points, every searched point answered its first
   * request, the aggregate was below the budget after every searched point
   * but the last, and it had reached the budget if points remain.
   */
  lemma {:induction false} DispatchIsGathered(acc: seq<Place>, points: seq<SamplePoint>, service: SamplePoint -> Feed)
    ensures var r := DispatchPoints(acc, points, service);
            r.Success? ==>
              && r.value.places == Gathered(acc, points, service, r.value.searched)
              && (forall n :: 0 <= n < r.value.searched ==> service(points[n]).Feed?)
              && (forall n :: 1 <= n < r.value.searched ==> |Gathered(acc, points, service, n)| < Budget)
              && (r.value.searched < |points| ==> |Gathered(acc, points, service, r.value.searched)| >= Budget)
    decreases |points|
  {
    var r := DispatchPoints(acc, points, service);
    if points != [] && service(points[0]).Feed? {
      var next := RunPoint(acc, service(points[0]));
      assert Gathered(acc, points, service, 1) == next;
      if |next| < Budget {
        var rest := points[1..];
        var sub := DispatchPoints(next, rest, service);
        if sub.Success? {
          DispatchIsGathered(next, rest, service);
          var m := sub.value.searched;
          assert r == Success(Aggregate(sub.value.places, m + 1));
          GatheredShift(acc, points, service, m);
          forall n | 0 <= n < m + 1
            ensures service(points[n]).Feed?
          {
            if n > 0 {
              assert points[n] == rest[n - 1];
            }
          }
          forall n | 1 <= n < m + 1
            ensures |Gathered(acc, points, service, n)| < Budget
          {
            GatheredShift(acc, points, service, n - 1);
          }
        }
      }
    }
  }

  /**
   * A failed point loop names the first point whose first request raised;
   * it was reached because the aggregate was below the budget after each
   * earlier point.
   */
  lemma {:induction false} DispatchFailsAtFirstRaise(acc: seq<Place>, points: seq<SamplePoint>, service: SamplePoint -> Feed)
    ensures var r := DispatchPoints(acc, points, service);
            r.Failure? ==>
              && r.error.point < |points|
              && service(points[r.error.point]).FirstRequestFails?
              && (forall n :: 0 <= n < r.error.point ==> service(points[n]).Feed?)
              && (forall n :: 1 <= n <= r.error.point ==> |Gathered(acc, points, service, n)| < Budget)
    decreases |points|
  {
    var r := DispatchPoints(acc, points, service);
    if points != [] && service(points[0]).Feed? {
      var next := RunPoint(acc, service(points[0]));
      assert Gathered(acc, points, service, 1) == next;
      if |next| < Budget {
        var rest := points[1..];
        var sub := DispatchPoints(next, rest, service);
        if sub.Failure? {
          DispatchFailsAtFirstRaise(next, rest, service);
          var i := sub.error.point;
          assert r == Failure(FirstRequestRaised(i + 1));
          assert points[i + 1] == rest[i];
          forall n | 0 <= n < i + 1
            ensures service(points[n]).Feed?
          {
            if n > 0 {
              assert points[n] == rest[n - 1];
            }
          }
          forall n | 1 <= n <= i + 1
            ensures |Gathered(acc, points, service, n)| < Budget
          {
            GatheredShift(acc, points, service, n - 1);
          }
        }
      }
    }
  }

  lemma {:induction false} PaginateExtends(acc: seq<Place>, rs: seq<Response>, budget: nat)
    requires |rs| >= 1
    ensures |Paginate(acc, rs, budget).places| >= |acc|
    ensures Paginate(acc, rs, budget).places[..|acc|] == acc
  {
    PaginateMergesConsumedPages(acc, rs, budget);
    MergeExtends(acc, Flatten(rs[..Paginate(acc, rs, budget).pages]));
  }

  /** Later points only append: the aggregate after n points is a prefix of the aggregate after m >= n. */
  lemma {:induction false} GatheredGrows(acc: seq<Place>, points: seq<SamplePoint>, service: SamplePoint -> Feed, n: nat, m: nat)
    requires n <= m <= |points|
    ensures |Gathered(acc, points, service, m)| >= |Gathered(acc, points, service, n)|
    ensures Gathered(acc, points, service, m)[..|Gathered(acc, points, service, n)|] == Gathered(acc, points, service, n)
    decreases m
  {
    if n < m {
      GatheredGrows(acc, points, service, n, m - 1);
      var before := Gathered(acc, points, service, m - 1);
      var feed := service(points[m - 1]);
      if feed.Feed? {
        PaginateExtends(before, [feed.first] + feed.next, MaxPages);
      }
      var small := Gathered(acc, points, service, n);
      var after := Gathered(acc, points, service, m);
      assert after[..|small|] == after[..|before|][..|small|];
    }
  }

  /**
   * The budget never interrupts a point: for every searched point, the
   * whole result of its page loop is in the aggregate, even past the budget.
   */
  lemma DispatchRunsWholePoint(acc: seq<Place>, points: seq<SamplePoint>, service: SamplePoint -> Feed, k: nat)
    ensures var r := DispatchPoints(acc, points, service);
            r.Success? && k < r.value.searched ==>
              var whole := RunPoint(Gathered(acc, points, service, k), service(points[k]));
              |r.value.places| >= |whole| && r.value.places[..|whole|] == whole
  {
    DispatchIsGathered(acc, points, service);
    var r := DispatchPoints(acc, points, service);
    if r.Success? && k < r.value.searched {
      GatheredGrows(acc, points, service, k + 1, r.value.searched);
    }
  }
}
