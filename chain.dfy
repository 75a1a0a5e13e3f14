/**
 * Ordered fallback chains. Every lookup cascade in the scrapers tries its candidates
 * strictly in order and stops at the first one that yields something usable (a hit) or
 * raises an exception it does not catch (an abort); a candidate that yields nothing is
 * a miss and the next one is tried.
 */
module Chain {
  import opened Base
  import opened Browser

  datatype Probe<+T> = Hit(value: T) | Miss | Abort(fault: Fault)

  /** A value together with the driver actions performed to obtain it. */
  datatype Acted<+T> = Acted(result: T, events: seq<Event>)

  /** The index of the first candidate that does not miss, or `|ps|` when all miss. */
  function FirstIndex<T>(ps: seq<Probe<T>>): (k: nat)
    ensures k <= |ps|
    ensures forall j :: 0 <= j < k ==> ps[j].Miss?
    ensures k < |ps| ==> !ps[k].Miss?
  {
    if ps == [] || !ps[0].Miss? then 0 else 1 + FirstIndex(ps[1..])
  }

  /** What a chain of side-effect-free candidates yields. */
  function FirstHit<T>(ps: seq<Probe<T>>): Probe<T> {
    var k := FirstIndex(ps);
    if k < |ps| then ps[k] else Miss
  }

  /** A candidate preceded only by misses decides the chain. */
  lemma {:induction false} FirstHitAt<T>(ps: seq<Probe<T>>, i: nat)
    requires i < |ps| && !ps[i].Miss?
    requires forall j :: 0 <= j < i ==> ps[j].Miss?
    ensures FirstIndex(ps) == i && FirstHit(ps) == ps[i]
  {
  }

  /** A chain misses exactly when every candidate misses. */
  lemma {:induction false} FirstHitMiss<T>(ps: seq<Probe<T>>)
    ensures FirstHit(ps).Miss? <==> forall j :: 0 <= j < |ps| ==> ps[j].Miss?
  {
  }

  /**
   * A side-effect-free chain yields no value exactly when every candidate that would have
   * yielded one comes after a candidate that aborted.
   */
  lemma {:induction false} FirstHitFails<T>(ps: seq<Probe<T>>)
    ensures !FirstHit(ps).Hit? <==>
      forall k :: 0 <= k < |ps| && ps[k].Hit? ==> exists j :: 0 <= j < k && ps[j].Abort?
  {
    var i := FirstIndex(ps);
    if !FirstHit(ps).Hit? {
      forall k | 0 <= k < |ps| && ps[k].Hit?
        ensures exists j :: 0 <= j < k && ps[j].Abort?
      {
        assert i < |ps| && i < k && ps[i].Abort?;
      }
    } else {
      assert i < |ps| && ps[i].Hit?;
      assert forall j :: 0 <= j < i ==> !ps[j].Abort?;
    }
  }

  /** Two chains tried one after the other behave as one longer chain. */
  lemma {:induction false} FirstHitAppend<T>(a: seq<Probe<T>>, b: seq<Probe<T>>)
    ensures FirstHit(a + b) == if FirstHit(a).Miss? then FirstHit(b) else FirstHit(a)
  {
    if a != [] {
      assert (a + b)[0] == a[0];
      if a[0].Miss? {
        assert (a + b)[1..] == a[1..] + b;
        FirstHitAppend(a[1..], b);
      }
    } else {
      assert a + b == b;
    }
  }

  /** The actions of the given attempts, in order. */
  function EventsOf<T>(attempts: seq<Acted<T>>): seq<Event> {
    if attempts == [] then []
    else EventsOf(attempts[..|attempts| - 1]) + attempts[|attempts| - 1].events
  }

  lemma {:induction false} EventsOfSnoc<T>(attempts: seq<Acted<T>>, i: nat)
    requires i < |attempts|
    ensures EventsOf(attempts[..i + 1]) == EventsOf(attempts[..i]) + attempts[i].events
  {
    assert attempts[..i + 1][..i] == attempts[..i];
  }

  lemma {:induction false} EventsOfAppend<T>(a: seq<Acted<T>>, b: seq<Acted<T>>)
    ensures EventsOf(a + b) == EventsOf(a) + EventsOf(b)
    decreases |b|
  {
    if b == [] {
      assert a + b == a;
    } else {
      var c := b[..|b| - 1];
      assert (a + b)[..|a + b| - 1] == a + c;
      EventsOfAppend(a, c);
      AppendAssoc(EventsOf(a), EventsOf(c), b[|b| - 1].events);
    }
  }

  lemma {:induction false} EventsOfCons<T>(attempts: seq<Acted<T>>)
    requires attempts != []
    ensures EventsOf(attempts) == attempts[0].events + EventsOf(attempts[1..])
  {
    assert attempts == [attempts[0]] + attempts[1..];
    EventsOfAppend([attempts[0]], attempts[1..]);
    assert [attempts[0]][..0] == [];
  }

  /** The attempts before `i` all miss. */
  predicate MissesBefore<T>(attempts: seq<Acted<Probe<T>>>, i: nat) {
    forall j :: 0 <= j < i && j < |attempts| ==> attempts[j].result.Miss?
  }

  /**
   * What a chain of candidates with side effects yields: the first outcome that is not a
   * miss, after the actions of every attempt up to and including that one; no later
   * candidate is attempted. When all miss, every attempt's actions happen.
   */
  function RunChain<T>(attempts: seq<Acted<Probe<T>>>): Acted<Probe<T>> {
    if attempts == [] then Acted(Miss, [])
    else if !attempts[0].result.Miss? then attempts[0]
    else
      var rest := RunChain(attempts[1..]);
      Acted(rest.result, attempts[0].events + rest.events)
  }

  /** An attempt preceded only by misses decides the chain, after the actions up to it. */
  lemma {:induction false} RunChainHit<T>(attempts: seq<Acted<Probe<T>>>, i: nat)
    requires i < |attempts| && !attempts[i].result.Miss? && MissesBefore(attempts, i)
    ensures RunChain(attempts) == Acted(attempts[i].result, EventsOf(attempts[..i + 1]))
  {
    var prefix := attempts[..i + 1];
    EventsOfCons(prefix);
    if i == 0 {
      assert prefix[1..] == [];
    } else {
      var tail := attempts[1..];
      assert MissesBefore(tail, i - 1) by {
        assert forall j :: 0 <= j < i - 1 ==> tail[j] == attempts[j + 1];
      }
      RunChainHit(tail, i - 1);
      assert prefix[1..] == tail[..i];
    }
  }

  /** A chain whose attempts all miss performs all of them. */
  lemma {:induction false} RunChainExhausted<T>(attempts: seq<Acted<Probe<T>>>)
    requires MissesBefore(attempts, |attempts|)
    ensures RunChain(attempts) == Acted(Miss, EventsOf(attempts))
    decreases |attempts|
  {
    if attempts != [] {
      var tail := attempts[1..];
      assert MissesBefore(tail, |tail|) by {
        assert forall j :: 0 <= j < |tail| ==> tail[j] == attempts[j + 1];
      }
      RunChainExhausted(tail);
      EventsOfCons(attempts);
    }
  }

  /**
   * Conversely, a chain that does not miss was decided by an attempt preceded only by
   * misses, and one that misses had every attempt miss.
   */
  lemma {:induction false} RunChainDecided<T>(attempts: seq<Acted<Probe<T>>>)
    ensures !RunChain(attempts).result.Miss? ==>
      exists k :: 0 <= k < |attempts| && MissesBefore(attempts, k) && !attempts[k].result.Miss?
    ensures RunChain(attempts).result.Miss? ==> MissesBefore(attempts, |attempts|)
    decreases |attempts|
  {
    if attempts != [] && attempts[0].result.Miss? {
      var tail := attempts[1..];
      RunChainDecided(tail);
      if !RunChain(attempts).result.Miss? {
        var k :| 0 <= k < |tail| && MissesBefore(tail, k) && !tail[k].result.Miss?;
        assert attempts[k + 1] == tail[k];
        assert MissesBefore(attempts, k + 1) by {
          assert forall j :: 1 <= j < k + 1 ==> attempts[j] == tail[j - 1];
        }
      } else {
        assert forall j :: 1 <= j < |attempts| ==> attempts[j] == tail[j - 1];
      }
    } else if attempts != [] {
      assert MissesBefore(attempts, 0);
    }
  }

  /**
   * One step of a loop that runs a chain: after attempt `i`, preceded only by misses,
   * the actions are those of the first `i + 1` attempts, and the chain is decided by
   * attempt `i` unless it missed too.
   */
  lemma {:induction false} RunChainStep<T>(attempts: seq<Acted<Probe<T>>>, i: nat, log: seq<Event>)
    requires i < |attempts| && MissesBefore(attempts, i)
    ensures log + EventsOf(attempts[..i]) + attempts[i].events == log + EventsOf(attempts[..i + 1])
    ensures attempts[i].result.Miss? ==> MissesBefore(attempts, i + 1)
    ensures !attempts[i].result.Miss? ==> RunChain(attempts) == Acted(attempts[i].result, EventsOf(attempts[..i + 1]))
  {
    EventsOfSnoc(attempts, i);
    AppendAssoc(log, EventsOf(attempts[..i]), attempts[i].events);
    if !attempts[i].result.Miss? {
      RunChainHit(attempts, i);
    }
  }

  /** Appending in two steps or in one. */
  lemma {:induction false} AppendAssoc<X>(log: seq<X>, a: seq<X>, b: seq<X>)
    ensures log + a + b == log + (a + b)
  {
  }

  /** A loop that found every attempt missing ran the whole chain. */
  lemma {:induction false} RunChainDone<T>(attempts: seq<Acted<Probe<T>>>)
    requires MissesBefore(attempts, |attempts|)
    ensures RunChain(attempts) == Acted(Miss, EventsOf(attempts[..|attempts|]))
  {
    RunChainExhausted(attempts);
    assert attempts[..|attempts|] == attempts;
  }

  /** The groups of candidates laid end to end, as a nested loop visits them. */
  function Flatten<T>(groups: seq<seq<T>>): seq<T> {
    if groups == [] then [] else Flatten(groups[..|groups| - 1]) + groups[|groups| - 1]
  }

  lemma {:induction false} FlattenStep<T>(groups: seq<seq<T>>, i: nat)
    requires i < |groups|
    ensures Flatten(groups[..i + 1]) == Flatten(groups[..i]) + groups[i]
  {
    assert groups[..i + 1][..i] == groups[..i];
  }

  lemma {:induction false} FlattenAppend<T>(a: seq<seq<T>>, b: seq<seq<T>>)
    ensures Flatten(a + b) == Flatten(a) + Flatten(b)
    decreases |b|
  {
    if b == [] {
      assert a + b == a;
    } else {
      var c := b[..|b| - 1];
      assert (a + b)[..|a + b| - 1] == a + c;
      FlattenAppend(a, c);
      AppendAssoc(Flatten(a), Flatten(c), b[|b| - 1]);
    }
  }

  /** Where group `i`'s `j`-th candidate sits among all candidates. */
  lemma {:induction false} FlattenSplit<T>(groups: seq<seq<T>>, i: nat, j: nat)
    requires i < |groups| && j <= |groups[i]|
    ensures |Flatten(groups[..i])| + j <= |Flatten(groups)|
    ensures Flatten(groups)[..|Flatten(groups[..i])| + j] == Flatten(groups[..i]) + groups[i][..j]
  {
    FlattenStep(groups, i);
    assert groups == groups[..i + 1] + groups[i + 1..];
    FlattenAppend(groups[..i + 1], groups[i + 1..]);
  }

  /** Every candidate of a side-effect-free chain misses. */
  predicate AllMiss<T>(ps: seq<Probe<T>>) {
    forall k :: 0 <= k < |ps| ==> ps[k].Miss?
  }

  /**
   * A side-effect-free chain run as a nested loop: the `j`-th candidate of group `i`,
   * preceded only by misses, decides it.
   */
  lemma {:induction false} FirstHitInGroup<T>(groups: seq<seq<Probe<T>>>, i: nat, j: nat)
    requires i < |groups| && j < |groups[i]| && !groups[i][j].Miss?
    requires AllMiss(Flatten(groups[..i])) && AllMiss(groups[i][..j])
    ensures FirstHit(Flatten(groups)) == groups[i][j]
  {
    var all := Flatten(groups);
    var n := |Flatten(groups[..i])|;
    FlattenSplit(groups, i, j + 1);
    assert all[..n + j + 1] == Flatten(groups[..i]) + groups[i][..j + 1];
    assert all[n + j] == all[..n + j + 1][n + j];
    forall k | 0 <= k < n + j
      ensures all[k].Miss?
    {
      assert all[k] == all[..n + j + 1][k];
      if k >= n {
        assert all[k] == groups[i][..j][k - n];
      }
    }
    FirstHitAt(all, n + j);
  }

  /** A group that misses throughout extends the run of misses. */
  lemma {:induction false} FirstHitGroupDone<T>(groups: seq<seq<Probe<T>>>, i: nat)
    requires i < |groups| && AllMiss(Flatten(groups[..i])) && AllMiss(groups[i])
    ensures AllMiss(Flatten(groups[..i + 1]))
  {
    FlattenStep(groups, i);
  }

  /** A group that does not miss, after groups that all missed, decides a nested chain. */
  lemma {:induction false} FirstHitGroupDecides<T>(groups: seq<seq<Probe<T>>>, i: nat)
    requires i < |groups| && AllMiss(Flatten(groups[..i])) && !FirstHit(groups[i]).Miss?
    ensures FirstHit(Flatten(groups)) == FirstHit(groups[i])
  {
    var j := FirstIndex(groups[i]);
    assert AllMiss(groups[i][..j]) by {
      assert forall k :: 0 <= k < j ==> groups[i][..j][k] == groups[i][k];
    }
    FirstHitInGroup(groups, i, j);
  }

  /** A side-effect-free nested chain whose candidates all miss, misses. */
  lemma {:induction false} FirstHitGroupsMiss<T>(groups: seq<seq<Probe<T>>>)
    requires AllMiss(Flatten(groups[..|groups|]))
    ensures FirstHit(Flatten(groups)) == Miss
  {
    assert groups[..|groups|] == groups;
    FirstHitMiss(Flatten(groups));
  }

  /**
   * Inside a nested loop running a chain with side effects: after attempt `j` of group
   * `i`, preceded only by misses, the actions are those up to it, and the chain is
   * decided by it unless it missed too.
   */
  lemma {:induction false} RunChainGroupStep<T>(groups: seq<seq<Acted<Probe<T>>>>, i: nat, j: nat, log: seq<Event>)
    requires i < |groups| && j < |groups[i]|
    requires MissesBefore(Flatten(groups[..i]), |Flatten(groups[..i])|) && MissesBefore(groups[i], j)
    ensures log + EventsOf(Flatten(groups[..i])) + EventsOf(groups[i][..j]) + groups[i][j].events
         == log + EventsOf(Flatten(groups[..i])) + EventsOf(groups[i][..j + 1])
    ensures groups[i][j].result.Miss? ==> MissesBefore(groups[i], j + 1)
    ensures !groups[i][j].result.Miss? ==>
      && RunChain(Flatten(groups)).result == groups[i][j].result
      && log + RunChain(Flatten(groups)).events == log + EventsOf(Flatten(groups[..i])) + EventsOf(groups[i][..j + 1])
  {
    var prior := log + EventsOf(Flatten(groups[..i]));
    RunChainStep(groups[i], j, prior);
    if !groups[i][j].result.Miss? {
      var all := Flatten(groups);
      var n := |Flatten(groups[..i])|;
      FlattenSplit(groups, i, j + 1);
      assert all[..n + j + 1] == Flatten(groups[..i]) + groups[i][..j + 1];
      assert all[n + j] == all[..n + j + 1][n + j];
      forall k | 0 <= k < n + j
        ensures all[k].result.Miss?
      {
        assert all[k] == all[..n + j + 1][k];
        if k >= n {
          assert all[k] == groups[i][..j][k - n];
        }
      }
      RunChainHit(all, n + j);
      EventsOfAppend(Flatten(groups[..i]), groups[i][..j + 1]);
      AppendAssoc(log, EventsOf(Flatten(groups[..i])), EventsOf(groups[i][..j + 1]));
    }
  }

  /** A group whose attempts all miss extends the run of misses and of actions. */
  lemma {:induction false} RunChainGroupDone<T>(groups: seq<seq<Acted<Probe<T>>>>, i: nat, log: seq<Event>)
    requires i < |groups|
    requires MissesBefore(Flatten(groups[..i]), |Flatten(groups[..i])|)
    requires MissesBefore(groups[i], |groups[i]|)
    ensures MissesBefore(Flatten(groups[..i + 1]), |Flatten(groups[..i + 1])|)
    ensures log + EventsOf(Flatten(groups[..i])) + EventsOf(groups[i][..|groups[i]|])
         == log + EventsOf(Flatten(groups[..i + 1]))
  {
    FlattenStep(groups, i);
    var a, b := Flatten(groups[..i]), groups[i];
    assert forall k :: |a| <= k < |a| + |b| ==> (a + b)[k] == b[k - |a|];
    assert b[..|b|] == b;
    EventsOfAppend(a, b);
    AppendAssoc(log, EventsOf(a), EventsOf(b));
  }

  /**
   * A whole group run after a run of misses: the chain is decided by that group unless
   * it missed too, in which case the misses and the actions extend over it.
   */
  lemma {:induction false} RunChainGroupRun<T>(groups: seq<seq<Acted<Probe<T>>>>, i: nat, log: seq<Event>)
    requires i < |groups|
    requires MissesBefore(Flatten(groups[..i]), |Flatten(groups[..i])|)
    ensures RunChain(groups[i]).result.Miss? ==>
      && MissesBefore(Flatten(groups[..i + 1]), |Flatten(groups[..i + 1])|)
      && log + EventsOf(Flatten(groups[..i])) + RunChain(groups[i]).events == log + EventsOf(Flatten(groups[..i + 1]))
    ensures !RunChain(groups[i]).result.Miss? ==>
      && RunChain(Flatten(groups)).result == RunChain(groups[i]).result
      && log + RunChain(Flatten(groups)).events == log + EventsOf(Flatten(groups[..i])) + RunChain(groups[i]).events
  {
    var group := groups[i];
    RunChainDecided(group);
    if RunChain(group).result.Miss? {
      RunChainExhausted(group);
      assert group[..|group|] == group;
      RunChainGroupDone(groups, i, log);
    } else {
      var k :| 0 <= k < |group| && MissesBefore(group, k) && !group[k].result.Miss?;
      RunChainHit(group, k);
      RunChainGroupStep(groups, i, k, log);
    }
  }

  /** A nested chain with side effects whose attempts all miss performs every attempt. */
  lemma {:induction false} RunChainGroupsExhausted<T>(groups: seq<seq<Acted<Probe<T>>>>)
    requires MissesBefore(Flatten(groups[..|groups|]), |Flatten(groups[..|groups|])|)
    ensures RunChain(Flatten(groups)) == Acted(Miss, EventsOf(Flatten(groups[..|groups|])))
  {
    assert groups[..|groups|] == groups;
    RunChainExhausted(Flatten(groups));
  }

  /** Two chains with side effects run one after the other behave as one longer chain. */
  lemma {:induction false} RunChainAppend<T>(a: seq<Acted<Probe<T>>>, b: seq<Acted<Probe<T>>>)
    ensures RunChain(a + b) ==
      if RunChain(a).result.Miss? then Acted(RunChain(b).result, RunChain(a).events + RunChain(b).events)
      else RunChain(a)
    decreases |a|
  {
    if a == [] {
      assert a + b == b;
    } else {
      assert (a + b)[0] == a[0];
      if a[0].result.Miss? {
        assert (a + b)[1..] == a[1..] + b;
        RunChainAppend(a[1..], b);
        AppendAssoc(a[0].events, RunChain(a[1..]).events, RunChain(b).events);
      }
    }
  }

  /** Every action of a run of attempts is an action of one of them. */
  lemma {:induction false} EventsOfMembers<T>(attempts: seq<Acted<T>>)
    ensures forall ev :: ev in EventsOf(attempts) ==>
      exists i :: 0 <= i < |attempts| && ev in attempts[i].events
    decreases |attempts|
  {
    if attempts != [] {
      var init := attempts[..|attempts| - 1];
      EventsOfMembers(init);
      forall ev | ev in EventsOf(attempts)
        ensures exists i :: 0 <= i < |attempts| && ev in attempts[i].events
      {
        if ev in EventsOf(init) {
          var i :| 0 <= i < |init| && ev in init[i].events;
          assert attempts[i] == init[i];
        } else {
          assert ev in attempts[|attempts| - 1].events;
        }
      }
    }
  }

  /** A chain's verdict as the scrapers report it: found, not found, or the fault raised. */
  function Decided<T>(chain: Acted<Probe<T>>): Acted<Result<bool, Fault>> {
    match chain.result
    case Hit(_) => Acted(Ok(true), chain.events)
    case Miss => Acted(Ok(false), chain.events)
    case Abort(f) => Acted(Err(f), chain.events)
  }

  /** Every action of a chain is an action of one of its attempts, and a decided chain
      includes the actions of the attempt that decided it. */
  lemma {:induction false} RunChainMembers<T>(attempts: seq<Acted<Probe<T>>>)
    ensures forall ev :: ev in RunChain(attempts).events ==>
      exists i :: 0 <= i < |attempts| && ev in attempts[i].events
    ensures !RunChain(attempts).result.Miss? ==>
      exists k :: 0 <= k < |attempts| && attempts[k].result == RunChain(attempts).result
        && forall ev :: ev in attempts[k].events ==> ev in RunChain(attempts).events
    decreases |attempts|
  {
    if attempts != [] && attempts[0].result.Miss? {
      var tail := attempts[1..];
      RunChainMembers(tail);
      forall ev | ev in RunChain(attempts).events
        ensures exists i :: 0 <= i < |attempts| && ev in attempts[i].events
      {
        if ev !in attempts[0].events {
          var i :| 0 <= i < |tail| && ev in tail[i].events;
          assert attempts[i + 1] == tail[i];
        }
      }
      if !RunChain(attempts).result.Miss? {
        var k :| 0 <= k < |tail| && tail[k].result == RunChain(tail).result
          && forall ev :: ev in tail[k].events ==> ev in RunChain(tail).events;
        assert attempts[k + 1] == tail[k];
      }
    } else if attempts != [] {
      assert attempts[0] == RunChain(attempts);
    }
  }

  /** Every candidate of a nested chain belongs to one of its groups. */
  lemma {:induction false} FlattenMembers<T>(groups: seq<seq<T>>)
    ensures forall x :: x in Flatten(groups) ==> exists i :: 0 <= i < |groups| && x in groups[i]
    decreases |groups|
  {
    if groups != [] {
      var init := groups[..|groups| - 1];
      FlattenMembers(init);
      forall x | x in Flatten(groups)
        ensures exists i :: 0 <= i < |groups| && x in groups[i]
      {
        if x in Flatten(init) {
          var i :| 0 <= i < |init| && x in init[i];
          assert groups[i] == init[i];
        } else {
          assert x in groups[|groups| - 1];
        }
      }
    }
  }

  /** The value a chain found; an extractor that swallows every exception turns an abort into `None`. */
  function HitValue<T>(pr: Probe<T>): Option<T> {
    if pr.Hit? then Some(pr.value) else None
  }

  /** A chain that yields a value found it at its first candidate that did not miss. */
  lemma {:induction false} FirstHitValue<T>(ps: seq<Probe<T>>, v: T)
    requires HitValue(FirstHit(ps)) == Some(v)
    ensures FirstIndex(ps) < |ps| && ps[FirstIndex(ps)] == Hit(v)
  {
  }

  /** The candidates `probe` makes of `xs`, one each, in order. */
  function Probes<X, T>(xs: seq<X>, probe: X -> Probe<T>): (ps: seq<Probe<T>>)
    ensures |ps| == |xs|
  {
    seq(|xs|, i requires 0 <= i < |xs| => probe(xs[i]))
  }

  /** The loop that tries the candidates of `xs` in turn and stops at the first that does not miss. */
  method ScanFirst<X, T>(xs: seq<X>, probe: X -> Probe<T>) returns (r: Option<T>)
    ensures r == HitValue(FirstHit(Probes(xs, probe)))
  {
    ghost var ps := Probes(xs, probe);
    var i := 0;
    while i < |xs|
      invariant 0 <= i <= |xs|
      invariant forall j :: 0 <= j < i ==> ps[j].Miss?
    {
      var pr := probe(xs[i]);
      assert ps[i] == pr;
      if !pr.Miss? {
        FirstHitAt(ps, i);
        return HitValue(pr);
      }
      i := i + 1;
    }
    FirstHitMiss(ps);
    r := None;
  }
}
