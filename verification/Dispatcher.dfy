/** The queue of deferred callbacks: posted from anywhere, run by the tick. */
module Dispatcher {
  import opened Basics

  datatype Timed<T> = Timed(due: int, task: T)

  /** Posting now, or at a time with a delay. */
  datatype Post<T> = Now(task: T) | Later(at: int, delay: nat, task: T)

  /** A posted task, with the time it becomes due if it was delayed. */
  datatype Item<T> = Item(task: T, due: Option<int>)
  datatype Ran<T> = Ran(item: Item<T>, at: int)

  /** The two queues, with the history of everything posted and everything run. */
  datatype World<T> = World(pending: seq<T>, delayed: seq<Timed<T>>, posted: seq<Item<T>>, executed: seq<Ran<T>>)

  // ---- operations, as functions -------------------------------------------------------

  function ItemOf<T>(p: Post<T>): Item<T> {
    match p
    case Now(task) => Item(task, None)
    case Later(at, delay, task) => Item(task, Some(at + delay))
  }

  ghost function DoPost<T>(w: World<T>, p: Post<T>): World<T> {
    match p
    case Now(task) => w.(pending := w.pending + [task], posted := w.posted + [ItemOf(p)])
    case Later(at, delay, task) =>
      w.(delayed := w.delayed + [Timed(at + delay, task)], posted := w.posted + [ItemOf(p)])
  }

  ghost function DoPosts<T>(w: World<T>, ps: seq<Post<T>>): World<T>
    decreases ps
  {
    if ps == [] then w else DoPosts(DoPost(w, ps[0]), ps[1..])
  }

  ghost function Due<T>(ds: seq<Timed<T>>, now: int): seq<Timed<T>> {
    if ds == [] then []
    else if ds[0].due <= now then [ds[0]] + Due(ds[1..], now)
    else Due(ds[1..], now)
  }

  ghost function NotDue<T>(ds: seq<Timed<T>>, now: int): seq<Timed<T>> {
    if ds == [] then []
    else if ds[0].due <= now then NotDue(ds[1..], now)
    else [ds[0]] + NotDue(ds[1..], now)
  }

  ghost function Immediate<T>(tasks: seq<T>): seq<Item<T>> {
    if tasks == [] then [] else [Item(tasks[0], None)] + Immediate(tasks[1..])
  }

  ghost function Delayed<T>(ds: seq<Timed<T>>): seq<Item<T>> {
    if ds == [] then [] else [Item(ds[0].task, Some(ds[0].due))] + Delayed(ds[1..])
  }

  /** What a drain is going to run: everything pending, then what is due. */
  ghost function Ready<T>(w: World<T>, now: int): seq<Item<T>> {
    Immediate(w.pending) + Delayed(Due(w.delayed, now))
  }

  ghost function RunOne<T>(w: World<T>, item: Item<T>, now: int, effect: T -> seq<Post<T>>): World<T> {
    DoPosts(w.(executed := w.executed + [Ran(item, now)]), effect(item.task))
  }

  ghost function RunAll<T>(w: World<T>, items: seq<Item<T>>, now: int, effect: T -> seq<Post<T>>): World<T>
    decreases items
  {
    if items == [] then w else RunAll(RunOne(w, items[0], now, effect), items[1..], now, effect)
  }

  /** `effect` gives everything that gets posted while a task runs, by it or by another
      thread. */
  ghost function DoDrain<T>(w: World<T>, now: int, effect: T -> seq<Post<T>>): World<T> {
    RunAll(w.(pending := [], delayed := NotDue(w.delayed, now)), Ready(w, now), now, effect)
  }

  // ---- what is conserved -----------------------------------------------------------------

  ghost function Items<T>(rs: seq<Ran<T>>): seq<Item<T>> {
    seq(|rs|, i requires 0 <= i < |rs| => rs[i].item)
  }

  /** The tasks among these items that were not delayed, in order. */
  ghost function Undelayed<T>(items: seq<Item<T>>): seq<T> {
    if items == [] then []
    else Undelayed(items[..|items| - 1]) + (if items[|items| - 1].due.None? then [items[|items| - 1].task] else [])
  }

  ghost predicate OnTime<T>(r: Ran<T>) {
    r.item.due.Some? ==> r.item.due.value <= r.at
  }

  /** Every task that is run, ready or queued. */
  ghost function Everything<T>(w: World<T>, ready: seq<Item<T>>): seq<Item<T>> {
    Items(w.executed) + ready + (Immediate(w.pending) + Delayed(w.delayed))
  }

  /** With `ready` still to run, every posted task is run, ready or queued, once. */
  ghost predicate Conserved<T>(w: World<T>, ready: seq<Item<T>>) {
    multiset(w.posted) == multiset(Everything(w, ready))
  }

  /** Tasks that were not delayed run first in, first out. */
  ghost predicate InOrder<T>(w: World<T>, ready: seq<Item<T>>) {
    Undelayed(w.posted) == Undelayed(Items(w.executed)) + Undelayed(ready) + w.pending
  }

  /** Nothing has run early. */
  ghost predicate Punctual<T>(w: World<T>) {
    forall i :: 0 <= i < |w.executed| ==> OnTime(w.executed[i])
  }

  ghost predicate Accounted<T>(w: World<T>, ready: seq<Item<T>>) {
    Conserved(w, ready) && InOrder(w, ready) && Punctual(w)
  }

  lemma {:induction false} UndelayedConcat<T>(a: seq<Item<T>>, b: seq<Item<T>>)
    ensures Undelayed(a + b) == Undelayed(a) + Undelayed(b)
    decreases b
  {
    if b == [] {
      assert a + b == a;
    } else {
      assert (a + b)[..|a + b| - 1] == a + b[..|b| - 1];
      UndelayedConcat(a, b[..|b| - 1]);
    }
  }

  lemma UndelayedOne<T>(item: Item<T>)
    ensures Undelayed([item]) == if item.due.None? then [item.task] else []
  {
    assert [item][..0] == [];
  }

  lemma {:induction false} ImmediateConcat<T>(a: seq<T>, b: seq<T>)
    ensures Immediate(a + b) == Immediate(a) + Immediate(b)
  {
    if a == [] {
      assert a + b == b;
    } else {
      assert (a + b)[1..] == a[1..] + b;
      ImmediateConcat(a[1..], b);
    }
  }

  lemma {:induction false} DelayedConcat<T>(a: seq<Timed<T>>, b: seq<Timed<T>>)
    ensures Delayed(a + b) == Delayed(a) + Delayed(b)
  {
    if a == [] {
      assert a + b == b;
    } else {
      assert (a + b)[1..] == a[1..] + b;
      DelayedConcat(a[1..], b);
    }
  }

  lemma Inserted<T>(a: seq<T>, x: T, b: seq<T>)
    ensures multiset(a + [x] + b) == multiset(a + b) + multiset([x])
  {
    assert multiset(a + [x] + b) == multiset(a) + multiset([x]) + multiset(b);
    assert multiset(a + b) == multiset(a) + multiset(b);
  }

  /** A post lands in the middle (pending) or at the end (delayed). */
  lemma PostInserts<T>(w: World<T>, ready: seq<Item<T>>, p: Post<T>)
    ensures multiset(Everything(DoPost(w, p), ready)) == multiset(Everything(w, ready)) + multiset([ItemOf(p)])
  {
    var x, ran, pending, delayed := ItemOf(p), Items(w.executed) + ready, Immediate(w.pending), Delayed(w.delayed);
    match p
    case Now(task) =>
      ImmediateConcat(w.pending, [task]);
      assert Immediate([task]) == [x];
      assert ran + ((pending + [x]) + delayed) == (ran + pending) + [x] + delayed;
      assert ran + (pending + delayed) == (ran + pending) + delayed;
      Inserted(ran + pending, x, delayed);
    case Later(at, delay, task) =>
      DelayedConcat(w.delayed, [Timed(at + delay, task)]);
      assert Delayed([Timed(at + delay, task)]) == [x];
      assert ran + (pending + (delayed + [x])) == (ran + (pending + delayed)) + [x] + [];
      assert ran + (pending + delayed) == (ran + (pending + delayed)) + [];
      Inserted(ran + (pending + delayed), x, []);
  }

  lemma PostConserves<T>(w: World<T>, ready: seq<Item<T>>, p: Post<T>)
    requires Conserved(w, ready)
    ensures Conserved(DoPost(w, p), ready)
  {
    PostInserts(w, ready, p);
    assert multiset(w.posted + [ItemOf(p)]) == multiset(w.posted) + multiset([ItemOf(p)]);
  }

  lemma PostQueuesLast<T>(w: World<T>, ready: seq<Item<T>>, p: Post<T>)
    requires InOrder(w, ready)
    ensures InOrder(DoPost(w, p), ready)
  {
    UndelayedConcat(w.posted, [ItemOf(p)]);
    UndelayedOne(ItemOf(p));
  }

  lemma PostKeepsAccounts<T>(w: World<T>, ready: seq<Item<T>>, p: Post<T>)
    requires Accounted(w, ready)
    ensures Accounted(DoPost(w, p), ready)
  {
    PostConserves(w, ready, p);
    PostQueuesLast(w, ready, p);
  }

  lemma {:induction false} PostsKeepAccounts<T>(w: World<T>, ready: seq<Item<T>>, ps: seq<Post<T>>)
    requires Accounted(w, ready)
    ensures Accounted(DoPosts(w, ps), ready) && DoPosts(w, ps).executed == w.executed
    decreases ps
  {
    if ps != [] {
      PostKeepsAccounts(w, ready, ps[0]);
      PostsKeepAccounts(DoPost(w, ps[0]), ready, ps[1..]);
    }
  }

  ghost predicate AllDue<T>(items: seq<Item<T>>, now: int) {
    forall i :: 0 <= i < |items| ==> OnTime(Ran(items[i], now))
  }

  lemma RecordConserves<T>(w: World<T>, item: Item<T>, rest: seq<Item<T>>, now: int)
    requires Conserved(w, [item] + rest)
    ensures Conserved(w.(executed := w.executed + [Ran(item, now)]), rest)
  {
    var ran := Items(w.executed);
    assert Items(w.executed + [Ran(item, now)]) == ran + [item];
    assert (ran + [item]) + rest == ran + ([item] + rest);
  }

  lemma RecordQueuesFirst<T>(w: World<T>, item: Item<T>, rest: seq<Item<T>>, now: int)
    requires InOrder(w, [item] + rest)
    ensures InOrder(w.(executed := w.executed + [Ran(item, now)]), rest)
  {
    assert Items(w.executed + [Ran(item, now)]) == Items(w.executed) + [item];
    UndelayedConcat(Items(w.executed), [item]);
    UndelayedConcat([item], rest);
    var a, b, c := Undelayed(Items(w.executed)), Undelayed([item]), Undelayed(rest);
    assert a + (b + c) == (a + b) + c;
  }

  lemma RunOneKeepsAccounts<T>(w: World<T>, item: Item<T>, rest: seq<Item<T>>, now: int, effect: T -> seq<Post<T>>)
    requires Accounted(w, [item] + rest) && OnTime(Ran(item, now))
    ensures var w' := RunOne(w, item, now, effect);
      Accounted(w', rest) && w'.executed == w.executed + [Ran(item, now)]
  {
    RecordConserves(w, item, rest, now);
    RecordQueuesFirst(w, item, rest, now);
    PostsKeepAccounts(w.(executed := w.executed + [Ran(item, now)]), rest, effect(item.task));
  }

  ghost function RanAt<T>(items: seq<Item<T>>, now: int): seq<Ran<T>> {
    seq(|items|, i requires 0 <= i < |items| => Ran(items[i], now))
  }

  /** What has run is a given log. */
  ghost predicate AccountedAfter<T>(w: World<T>, ready: seq<Item<T>>, log: seq<Ran<T>>) {
    Accounted(w, ready) && w.executed == log
  }

  lemma {:induction false} RunAllLogs<T>(w: World<T>, items: seq<Item<T>>, now: int, effect: T -> seq<Post<T>>,
                                         log: seq<Ran<T>>)
    requires AccountedAfter(w, items, log) && AllDue(items, now)
    ensures AccountedAfter(RunAll(w, items, now, effect), [], log + RanAt(items, now))
    decreases items
  {
    if items == [] {
      assert log + RanAt(items, now) == log;
    } else {
      var item, rest := items[0], items[1..];
      assert items == [item] + rest && OnTime(Ran(item, now));
      RunOneKeepsAccounts(w, item, rest, now, effect);
      TailDue(item, rest, now);
      RunAllLogs(RunOne(w, item, now, effect), rest, now, effect, log + [Ran(item, now)]);
      RanAtStep(log, item, rest, now);
    }
  }

  lemma TailDue<T>(item: Item<T>, rest: seq<Item<T>>, now: int)
    requires AllDue([item] + rest, now)
    ensures AllDue(rest, now)
  {
    assert forall i :: 0 <= i < |rest| ==> rest[i] == ([item] + rest)[i + 1];
  }

  lemma RunAllKeepsAccounts<T>(w: World<T>, items: seq<Item<T>>, now: int, effect: T -> seq<Post<T>>)
    requires Accounted(w, items) && AllDue(items, now)
    ensures Accounted(RunAll(w, items, now, effect), [])
    ensures RunAll(w, items, now, effect).executed == w.executed + RanAt(items, now)
  {
    RunAllLogs(w, items, now, effect, w.executed);
  }

  lemma RanAtStep<T>(executed: seq<Ran<T>>, item: Item<T>, rest: seq<Item<T>>, now: int)
    ensures executed + [Ran(item, now)] + RanAt(rest, now) == executed + RanAt([item] + rest, now)
  {
    assert RanAt([item] + rest, now) == [Ran(item, now)] + RanAt(rest, now);
  }

  lemma DelayedCons<T>(d: Timed<T>, ds: seq<Timed<T>>)
    ensures Delayed([d] + ds) == [Item(d.task, Some(d.due))] + Delayed(ds)
  {
    assert ([d] + ds)[1..] == ds;
  }

  lemma PutFirst<T>(x: T, whole: seq<T>, due: seq<T>, later: seq<T>)
    requires multiset(whole) == multiset(due + later)
    ensures multiset([x] + whole) == multiset(([x] + due) + later)
  {
    assert ([x] + due) + later == [x] + (due + later);
    SameTail([x], whole, due + later);
  }

  lemma PutBetween<T>(x: T, whole: seq<T>, due: seq<T>, later: seq<T>)
    requires multiset(whole) == multiset(due + later)
    ensures multiset([x] + whole) == multiset(due + ([x] + later))
  {
    assert due + ([x] + later) == due + [x] + later;
    Inserted(due, x, later);
    assert multiset([x] + whole) == multiset([x]) + multiset(whole);
  }

  lemma {:induction false} DueSplits<T>(ds: seq<Timed<T>>, now: int)
    ensures multiset(Delayed(ds)) == multiset(Delayed(Due(ds, now)) + Delayed(NotDue(ds, now)))
  {
    if ds != [] {
      var x := Item(ds[0].task, Some(ds[0].due));
      DueSplits(ds[1..], now);
      if ds[0].due <= now {
        DelayedCons(ds[0], Due(ds[1..], now));
        PutFirst(x, Delayed(ds[1..]), Delayed(Due(ds[1..], now)), Delayed(NotDue(ds[1..], now)));
      } else {
        DelayedCons(ds[0], NotDue(ds[1..], now));
        PutBetween(x, Delayed(ds[1..]), Delayed(Due(ds[1..], now)), Delayed(NotDue(ds[1..], now)));
      }
    }
  }

  /** The due ones are due and the others are not. */
  lemma {:induction false} DueIsDue<T>(ds: seq<Timed<T>>, now: int)
    ensures AllDue(Delayed(Due(ds, now)), now)
    ensures forall i :: 0 <= i < |NotDue(ds, now)| ==> NotDue(ds, now)[i].due > now
  {
    if ds != [] {
      DueIsDue(ds[1..], now);
      if ds[0].due <= now {
        DelayedCons(ds[0], Due(ds[1..], now));
      } else {
        DelayedCons(ds[0], NotDue(ds[1..], now));
      }
    }
  }

  lemma {:induction false} DelayedIsDelayed<T>(ds: seq<Timed<T>>)
    ensures Undelayed(Delayed(ds)) == []
  {
    if ds != [] {
      DelayedIsDelayed(ds[1..]);
      var item := Item(ds[0].task, Some(ds[0].due));
      UndelayedConcat([item], Delayed(ds[1..]));
      UndelayedOne(item);
    }
  }

  lemma {:induction false} ImmediateIsUndelayed<T>(tasks: seq<T>)
    ensures Undelayed(Immediate(tasks)) == tasks
    ensures forall i :: 0 <= i < |Immediate(tasks)| ==> Immediate(tasks)[i].due.None?
  {
    if tasks != [] {
      ImmediateIsUndelayed(tasks[1..]);
      UndelayedConcat([Item(tasks[0], None)], Immediate(tasks[1..]));
      UndelayedOne(Item(tasks[0], None));
    }
  }

  lemma ReadyInOrder<T>(w: World<T>, now: int)
    ensures Undelayed(Ready(w, now)) == w.pending && AllDue(Ready(w, now), now)
  {
    var due := Delayed(Due(w.delayed, now));
    ImmediateIsUndelayed(w.pending);
    DelayedIsDelayed(Due(w.delayed, now));
    DueIsDue(w.delayed, now);
    UndelayedConcat(Immediate(w.pending), due);
  }

  lemma Regrouped<T>(ran: seq<T>, pending: seq<T>, all: seq<T>, due: seq<T>, later: seq<T>)
    requires multiset(all) == multiset(due + later)
    ensures multiset(ran + [] + (pending + all)) == multiset(ran + (pending + due) + ([] + later))
  {
    assert ran + [] + (pending + all) == (ran + pending) + all;
    assert ran + (pending + due) + ([] + later) == (ran + pending) + (due + later);
    SameTail(ran + pending, all, due + later);
  }

  lemma DrainConserves<T>(w: World<T>, now: int)
    requires Conserved(w, [])
    ensures Conserved(w.(pending := [], delayed := NotDue(w.delayed, now)), Ready(w, now))
  {
    DueSplits(w.delayed, now);
    Regrouped(Items(w.executed), Immediate(w.pending), Delayed(w.delayed),
              Delayed(Due(w.delayed, now)), Delayed(NotDue(w.delayed, now)));
  }

  lemma DrainQueuesFirst<T>(w: World<T>, now: int)
    requires InOrder(w, [])
    ensures InOrder(w.(pending := [], delayed := NotDue(w.delayed, now)), Ready(w, now))
  {
    ReadyInOrder(w, now);
    var ran, pending := Undelayed(Items(w.executed)), w.pending;
    assert ran + [] + pending == ran + pending + [];
  }

  lemma SameTail<T>(a: seq<T>, b: seq<T>, c: seq<T>)
    requires multiset(b) == multiset(c)
    ensures multiset(a + b) == multiset(a + c)
  {
    assert multiset(a + b) == multiset(a) + multiset(b);
    assert multiset(a + c) == multiset(a) + multiset(c);
  }

  lemma DrainStarts<T>(w: World<T>, now: int)
    requires Accounted(w, [])
    ensures Accounted(w.(pending := [], delayed := NotDue(w.delayed, now)), Ready(w, now))
  {
    DrainConserves(w, now);
    DrainQueuesFirst(w, now);
  }

  /** A drain keeps the accounts and runs exactly what was ready when it started: the
      pending tasks in order, then the due ones in the order they were posted. What the
      tasks post meanwhile waits for the next drain, and what was not due stays. */
  lemma DrainKeepsAccounts<T>(w: World<T>, now: int, effect: T -> seq<Post<T>>)
    requires Accounted(w, [])
    ensures Accounted(DoDrain(w, now, effect), [])
    ensures DoDrain(w, now, effect).executed == w.executed + RanAt(Ready(w, now), now)
  {
    DrainStarts(w, now);
    ReadyInOrder(w, now);
    RunAllKeepsAccounts(w.(pending := [], delayed := NotDue(w.delayed, now)), Ready(w, now), now, effect);
  }

  /** Everything these tasks post, in order. */
  ghost function Gathered<T>(items: seq<Item<T>>, effect: T -> seq<Post<T>>): seq<Post<T>> {
    if items == [] then [] else effect(items[0].task) + Gathered(items[1..], effect)
  }

  lemma {:induction false} PostsConcat<T>(w: World<T>, a: seq<Post<T>>, b: seq<Post<T>>)
    ensures DoPosts(w, a + b) == DoPosts(DoPosts(w, a), b)
    decreases a
  {
    if a == [] {
      assert a + b == b;
    } else {
      assert (a + b)[1..] == a[1..] + b;
      PostsConcat(DoPost(w, a[0]), a[1..], b);
    }
  }

  lemma {:induction false} PostsIgnoreHistory<T>(w: World<T>, ps: seq<Post<T>>, history: seq<Ran<T>>)
    ensures DoPosts(w.(executed := history), ps) == DoPosts(w, ps).(executed := history)
    decreases ps
  {
    if ps != [] { PostsIgnoreHistory(DoPost(w, ps[0]), ps[1..], history); }
  }

  lemma {:induction false} RunAllQueues<T>(w: World<T>, items: seq<Item<T>>, now: int, effect: T -> seq<Post<T>>,
                                           history: seq<Ran<T>>)
    ensures RunAll(w, items, now, effect).(executed := history)
          == DoPosts(w.(executed := history), Gathered(items, effect))
    decreases items
  {
    if items != [] {
      var next := RunOne(w, items[0], now, effect);
      var ps := effect(items[0].task);
      RunAllQueues(next, items[1..], now, effect, history);
      PostsIgnoreHistory(w.(executed := w.executed + [Ran(items[0], now)]), ps, history);
      PostsConcat(w.(executed := history), ps, Gathered(items[1..], effect));
    }
  }

  /** After a drain the queues hold exactly what was delayed and not yet due, and then what
      the tasks posted while they ran, in order. */
  lemma DrainLeavesNewWork<T>(w: World<T>, now: int, effect: T -> seq<Post<T>>)
    ensures DoDrain(w, now, effect).(executed := w.executed)
         == DoPosts(w.(pending := [], delayed := NotDue(w.delayed, now)), Gathered(Ready(w, now), effect))
    ensures forall i :: 0 <= i < |NotDue(w.delayed, now)| ==> NotDue(w.delayed, now)[i].due > now
  {
    RunAllQueues(w.(pending := [], delayed := NotDue(w.delayed, now)), Ready(w, now), now, effect, w.executed);
    DueIsDue(w.delayed, now);
  }

  lemma {:induction false} DueSnoc<T>(ds: seq<Timed<T>>, d: Timed<T>, now: int)
    ensures Due(ds + [d], now) == Due(ds, now) + (if d.due <= now then [d] else [])
  {
    if ds == [] {
      assert ds + [d] == [d] && [d][1..] == [];
    } else {
      DueSnoc(ds[1..], d, now);
      assert (ds + [d])[1..] == ds[1..] + [d] && (ds + [d])[0] == ds[0];
    }
  }

  /** A task posted with a delay is run by a drain, after everything that was ready before,
      exactly when its delay is over by then; one posted without is run by the next drain,
      after what was pending before. */
  lemma DelayIsKept<T>(w: World<T>, at: int, delay: nat, task: T, now: int)
    ensures Ready(DoPost(w, Later(at, delay, task)), now)
         == Ready(w, now) + (if now - at >= delay then [Item(task, Some(at + delay))] else [])
    ensures Ready(DoPost(w, Now(task)), now)
         == Immediate(w.pending) + [Item(task, None)] + Delayed(Due(w.delayed, now))
  {
    var d := Timed(at + delay, task);
    DueSnoc(w.delayed, d, now);
    DelayedConcat(Due(w.delayed, now), if d.due <= now then [d] else []);
    assert [d][1..] == [] && Delayed([d]) == [Item(task, Some(at + delay))];
    ImmediateConcat(w.pending, [task]);
    assert [task][1..] == [] && Immediate([task]) == [Item(task, None)];
    var a, b := Immediate(w.pending), Delayed(Due(w.delayed, now));
    assert now - at >= delay ==> (a + b) + [Item(task, Some(at + delay))] == a + (b + [Item(task, Some(at + delay))]);
  }

  // ---- every run ---------------------------------------------------------------------------

  datatype Op<!T> = Enqueue(post: Post<T>) | Drain(now: int, effect: T -> seq<Post<T>>)

  ghost function Do<T>(w: World<T>, op: Op<T>): World<T> {
    match op
    case Enqueue(p) => DoPost(w, p)
    case Drain(now, effect) => DoDrain(w, now, effect)
  }

  ghost function DoAll<T>(w: World<T>, ops: seq<Op<T>>): World<T> {
    if ops == [] then w else Do(DoAll(w, ops[..|ops| - 1]), ops[|ops| - 1])
  }

  ghost function Empty<T>(): World<T> {
    World([], [], [], [])
  }

  /** Conservation over every run of posts and drains. */
  lemma {:induction false} RunKeepsAccounts<T>(ops: seq<Op<T>>)
    ensures Accounted(DoAll(Empty(), ops), [])
  {
    if ops == [] {
      assert Accounted<T>(Empty(), []);
    } else {
      RunKeepsAccounts(ops[..|ops| - 1]);
      var w := DoAll(Empty(), ops[..|ops| - 1]);
      match ops[|ops| - 1]
      case Enqueue(p) => PostKeepsAccounts(w, [], p);
      case Drain(now, effect) => DrainKeepsAccounts(w, now, effect);
    }
  }

  ghost predicate NoRepeat<T>(xs: seq<Item<T>>) {
    forall x :: x in xs ==> multiset(xs)[x] == 1
  }

  /** No task runs twice, and none that has run is still queued, when no two posts are the
      same; and none runs before it is due. */
  lemma RunsOnceAndOnTime<T>(ops: seq<Op<T>>, i: nat)
    requires NoRepeat(DoAll(Empty(), ops).posted) && i < |DoAll(Empty(), ops).executed|
    ensures var w := DoAll(Empty(), ops);
      && OnTime(w.executed[i])
      && (forall j :: 0 <= j < |w.executed| && j != i ==> w.executed[j].item != w.executed[i].item)
      && w.executed[i].item !in Immediate(w.pending) && w.executed[i].item !in Delayed(w.delayed)
  {
    var w := DoAll(Empty(), ops);
    RunKeepsAccounts(ops);
    var ran := Items(w.executed);
    var x := ran[i];
    assert x in ran && x in multiset(w.posted);
    forall j | 0 <= j < |w.executed| && j != i ensures w.executed[j].item != x {
      if ran[j] == x { TwiceCountsTwo(ran, i, j); }
    }
  }

  lemma TwiceCountsTwo<T>(xs: seq<Item<T>>, i: nat, j: nat)
    requires i < |xs| && j < |xs| && i != j && xs[i] == xs[j]
    ensures multiset(xs)[xs[i]] >= 2
  {
    var a, b := if i < j then i else j, if i < j then j else i;
    assert xs == xs[..b] + xs[b..];
    assert xs[..b][a] == xs[a] && xs[b..][0] == xs[b];
  }

  /** First in, first out across drains: the undelayed tasks that have run are a prefix of
      those posted, and the rest are pending in order. */
  lemma FirstInFirstOut<T>(ops: seq<Op<T>>)
    ensures var w := DoAll(Empty(), ops);
      Undelayed(w.posted) == Undelayed(Items(w.executed)) + w.pending
  {
    RunKeepsAccounts(ops);
    var w := DoAll(Empty(), ops);
    assert Undelayed(Items(w.executed)) + Undelayed([]) == Undelayed(Items(w.executed));
  }

  // ---- the dispatcher ----------------------------------------------------------------------

  class TaskQueue<T> {
    var pending: seq<T>
    var delayed: seq<Timed<T>>
    ghost var posted: seq<Item<T>>
    ghost var executed: seq<Ran<T>>

    ghost function State(): World<T>
      reads this
    {
      World(pending, delayed, posted, executed)
    }

    constructor ()
      ensures State() == Empty()
    {
      pending, delayed, posted, executed := [], [], [], [];
    }

    method PostNow(task: T)
      modifies this
      ensures State() == DoPost(old(State()), Now(task))
    {
      pending := pending + [task];
      posted := posted + [Item(task, None)];
    }

    method PostAfter(at: int, delay: nat, task: T)
      modifies this
      ensures State() == DoPost(old(State()), Later(at, delay, task))
    {
      delayed := delayed + [Timed(at + delay, task)];
      posted := posted + [Item(task, Some(at + delay))];
    }

    /** Removes the due tasks from the delayed queue and returns them. */
    method TakeDue(now: int) returns (due: seq<Timed<T>>)
      modifies this`delayed
      ensures due == Due(old(delayed), now) && delayed == NotDue(old(delayed), now)
    {
      due := [];
      var i := 0;
      while i < |delayed|
        invariant 0 <= i <= |delayed|
        invariant due + Due(delayed[i..], now) == Due(old(delayed), now)
        invariant delayed[..i] + NotDue(delayed[i..], now) == NotDue(old(delayed), now)
        decreases |delayed| - i
      {
        var d := delayed[i];
        assert delayed[i..][1..] == delayed[i + 1..];
        if d.due <= now {
          due := due + [d];
          ghost var was := delayed;
          delayed := delayed[..i] + delayed[i + 1..];
          assert delayed[i..] == was[i + 1..] && delayed[..i] == was[..i];
        } else {
          assert delayed[..i + 1] == delayed[..i] + [d];
          i := i + 1;
        }
      }
      assert delayed[..i] + [] == delayed && due + [] == due;
    }

    /** Runs one task; its posts go to the queues. */
    method Run(item: Item<T>, now: int, effect: T -> seq<Post<T>>)
      modifies this
      ensures State() == RunOne(old(State()), item, now, effect)
    {
      executed := executed + [Ran(item, now)];
      var ps := effect(item.task);
      ghost var start := State();
      for i := 0 to |ps|
        invariant DoPosts(State(), ps[i..]) == DoPosts(start, ps)
      {
        assert ps[i..][1..] == ps[i + 1..];
        match ps[i]
        case Now(task) => PostNow(task);
        case Later(at, delay, task) => PostAfter(at, delay, task);
      }
    }

    method Drain(now: int, effect: T -> seq<Post<T>>)
      modifies this
      ensures State() == DoDrain(old(State()), now, effect)
    {
      var ready: seq<Item<T>> := [];
      for i := 0 to |pending|
        invariant State() == old(State())
        invariant ready == Immediate(old(pending)[..i])
      {
        assert pending[..i + 1] == pending[..i] + [pending[i]];
        ImmediateConcat(pending[..i], [pending[i]]);
        ready := ready + [Item(pending[i], None)];
      }
      assert pending[..|pending|] == pending;
      pending := [];
      var due := TakeDue(now);
      ghost var first := ready;
      for i := 0 to |due|
        invariant ready == first + Delayed(due[..i])
        invariant State() == old(State()).(pending := [], delayed := NotDue(old(delayed), now))
      {
        assert due[..i + 1] == due[..i] + [due[i]];
        DelayedConcat(due[..i], [due[i]]);
        ready := ready + [Item(due[i].task, Some(due[i].due))];
      }
      assert due[..|due|] == due;
      ghost var start := State();
      for i := 0 to |ready|
        invariant RunAll(State(), ready[i..], now, effect) == RunAll(start, ready, now, effect)
      {
        assert ready[i..][1..] == ready[i + 1..];
        Run(ready[i], now, effect);
      }
    }
  }
}
