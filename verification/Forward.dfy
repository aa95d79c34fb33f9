/** `ApiWrap::forwardMessages`: batches by source peer, the stars they pay, and the shared success callback. */
module Forward {

  type Peer = nat

  datatype Item = Item(id: int, peer: Peer, savedMusic: bool, document: nat)

  /** One forward request */
  datatype Batch = Batch(from: Peer, ids: seq<int>, randomIds: seq<nat>, starsPaid: int)

  /** The items that are forwarded; saved music is sent as new documents instead. */
  function Kept(items: seq<Item>): seq<Item> {
    if items == [] then [] else (if items[0].savedMusic then [] else [items[0]]) + Kept(items[1..])
  }

  function Documents(items: seq<Item>): seq<nat> {
    if items == [] then [] else (if items[0].savedMusic then [items[0].document] else []) + Documents(items[1..])
  }

  /** One item more: saved music is sent as its document, and anything else is forwarded behind the items before it. */
  lemma {:induction false} OneItemMore(items: seq<Item>, item: Item)
    ensures item.savedMusic
        ==> Kept(items + [item]) == Kept(items) && Documents(items + [item]) == Documents(items) + [item.document]
    ensures !item.savedMusic
        ==> Kept(items + [item]) == Kept(items) + [item] && Documents(items + [item]) == Documents(items)
  {
    if items == [] {
      assert [] + [item] == [item] && [item][1..] == [];
    } else {
      OneItemMore(items[1..], item);
      assert (items + [item])[1..] == items[1..] + [item];
    }
  }

  lemma NoItems()
    ensures Kept([]) == [] && Documents([]) == []
  {}

  function Ids(items: seq<Item>): (ids: seq<int>)
    ensures |ids| == |items| && forall i | 0 <= i < |items| :: ids[i] == items[i].id
  {
    seq(|items|, i requires 0 <= i < |items| => items[i].id)
  }

  // ----- Runs of one source peer -----

  function Flatten<T>(parts: seq<seq<T>>): seq<T>
    decreases |parts|
  {
    if parts == [] then [] else Flatten(parts[..|parts| - 1]) + parts[|parts| - 1]
  }

  predicate OnePeer(run: seq<Item>) { run != [] && forall item | item in run :: item.peer == run[0].peer }

  /** Runs of one peer each, none of which continues the one before it */
  predicate AreRuns(runs: seq<seq<Item>>)
    decreases |runs|
  {
    runs == [] || (AreRuns(runs[..|runs| - 1]) && Follows(runs[..|runs| - 1], runs[|runs| - 1]))
  }

  predicate Follows(runs: seq<seq<Item>>, run: seq<Item>) {
    OnePeer(run) && (runs != [] ==> runs[|runs| - 1] != [] && runs[|runs| - 1][0].peer != run[0].peer)
  }

  /** The items cut into runs that cannot be made longer */
  predicate MaximalRuns(runs: seq<seq<Item>>, items: seq<Item>) { Flatten(runs) == items && AreRuns(runs) }

  function Runs(items: seq<Item>): (runs: seq<seq<Item>>)
    decreases |items|
  {
    if items == [] then []
    else
      var last, runs := items[|items| - 1], Runs(items[..|items| - 1]);
      if runs == [] || runs[|runs| - 1] == [] || runs[|runs| - 1][0].peer != last.peer then runs + [[last]]
      else runs[..|runs| - 1] + [runs[|runs| - 1] + [last]]
  }

  lemma FlattenAppend<T>(parts: seq<seq<T>>, part: seq<T>)
    ensures Flatten(parts + [part]) == Flatten(parts) + part
  {
    assert (parts + [part])[..|parts|] == parts;
  }

  lemma AppendRun(runs: seq<seq<Item>>, run: seq<Item>)
    ensures AreRuns(runs + [run]) <==> AreRuns(runs) && Follows(runs, run)
  {
    assert (runs + [run])[..|runs|] == runs;
  }

  lemma LastRun(runs: seq<seq<Item>>)
    requires AreRuns(runs) && runs != []
    ensures OnePeer(runs[|runs| - 1]) && AreRuns(runs[..|runs| - 1]) && Follows(runs[..|runs| - 1], runs[|runs| - 1])
  {}

  lemma {:induction false} RunsAreMaximal(items: seq<Item>)
    ensures MaximalRuns(Runs(items), items)
    ensures items != [] ==> Runs(items) != []
    decreases |items|
  {
    hide Flatten, AreRuns, OnePeer, Follows;
    if items == [] {
      NoRuns();
    } else {
      var front, last := items[..|items| - 1], items[|items| - 1];
      var runs := Runs(front);
      RunsAreMaximal(front);
      assert items == front + [last];
      if runs == [] {
        StartRun(runs, last);
        FlattenAppend(runs, [last]);
        AppendRun(runs, [last]);
      } else {
        var head, tail := runs[..|runs| - 1], runs[|runs| - 1];
        assert runs == head + [tail];
        LastRun(runs);
        FlattenAppend(head, tail);
        StartRun(runs, last);
        FlattenAppend(runs, [last]);
        AppendRun(runs, [last]);
        LongerRun(head, tail, last);
        FlattenAppend(head, tail + [last]);
        AppendRun(head, tail + [last]);
        assert Flatten(head) + (tail + [last]) == Flatten(head) + tail + [last];
      }
    }
  }

  lemma NoRuns()
    ensures Flatten<Item>([]) == [] && AreRuns([]) && Runs([]) == []
  {}

  lemma StartRun(runs: seq<seq<Item>>, item: Item)
    ensures Follows(runs, [item])
         <==> (runs != [] ==> runs[|runs| - 1] != [] && runs[|runs| - 1][0].peer != item.peer)
    ensures OnePeer([item])
  {}

  lemma LongerRun(runs: seq<seq<Item>>, run: seq<Item>, item: Item)
    requires run != []
    ensures OnePeer(run + [item]) <==> OnePeer(run) && run[0].peer == item.peer
    ensures OnePeer(run) && run[0].peer == item.peer ==> (Follows(runs, run + [item]) <==> Follows(runs, run))
  {
    assert OnePeer(run + [item]) ==> item in run + [item] && forall i | i in run :: i in run + [item];
  }

  /** There is only one such cut. */
  lemma {:induction false} RunsAreUnique(a: seq<seq<Item>>, items: seq<Item>)
    requires MaximalRuns(a, items)
    ensures a == Runs(items)
    decreases |items|
  {
    hide Flatten, AreRuns, OnePeer, Follows, Runs;
    NoRuns();
    if a != [] {
      var head, tail := a[..|a| - 1], a[|a| - 1];
      assert a == head + [tail];
      LastRun(a);
      FlattenAppend(head, tail);
      NonEmptyRun(tail);
      var shorter, last := tail[..|tail| - 1], tail[|tail| - 1];
      var front := Flatten(head) + shorter;
      assert tail == shorter + [last] && items == front + [last];
      RunsNext(front, last);
      if shorter == [] {
        assert front == Flatten(head) && tail == [last];
        RunsAreUnique(head, front);
        StartRun(head, last);
      } else {
        LongerRun(head, shorter, last);
        FlattenAppend(head, shorter);
        AppendRun(head, shorter);
        RunsAreUnique(head + [shorter], front);
        assert (head + [shorter])[..|head|] == head;
      }
    }
  }

  lemma RunsNext(front: seq<Item>, last: Item)
    ensures var runs := Runs(front);
            Runs(front + [last])
            == if runs == [] || runs[|runs| - 1] == [] || runs[|runs| - 1][0].peer != last.peer then runs + [[last]]
               else runs[..|runs| - 1] + [runs[|runs| - 1] + [last]]
  {
    assert (front + [last])[..|front|] == front;
  }

  lemma NonEmptyRun(run: seq<Item>)
    requires OnePeer(run)
    ensures run != []
  {}

  // ----- Stars -----

  /** `int(...)` of a 64-bit value */
  function ToInt32(v: int): (r: int)
    ensures -0x8000_0000 <= r < 0x8000_0000
    ensures -0x8000_0000 <= v < 0x8000_0000 ==> r == v
  {
    (v + 0x8000_0000) % 0x1_0000_0000 - 0x8000_0000
  }

  function Min(a: int, b: int): int { if b < a then b else a }

  function PaidFor(approved: int, count: nat, price: nat): int { Min(approved, ToInt32(count * price)) }

  /** The request for one run, with the first of the random ids that are left */
  function BatchOf(run: seq<Item>, randomIds: seq<nat>, paid: int): Batch
    requires run != [] && |run| <= |randomIds|
  {
    Batch(run[0].peer, Ids(run), randomIds[..|run|], paid)
  }

  /** The requests for the runs, in order */
  function Batches(runs: seq<seq<Item>>, randomIds: seq<nat>, approved: int, price: nat): (batches: seq<Batch>)
    ensures |batches| <= |runs|
    decreases |runs|
  {
    if runs == [] then []
    else
      var head, run := runs[..|runs| - 1], runs[|runs| - 1];
      var used := |Flatten(head)|;
      if run == [] || used + |run| > |randomIds| then []
      else
        Batches(head, randomIds, approved, price)
        + [BatchOf(run, randomIds[used..], PaidFor(Remaining(head, approved, price), |run|, price))]
  }

  /** What is left of the approved stars behind the runs */
  function Remaining(runs: seq<seq<Item>>, approved: int, price: nat): int
    decreases |runs|
  {
    if runs == [] then approved
    else
      var left := Remaining(runs[..|runs| - 1], approved, price);
      left - PaidFor(left, |runs[|runs| - 1]|, price)
  }

  function AllIds(batches: seq<Batch>): seq<int>
    decreases |batches|
  {
    if batches == [] then [] else AllIds(batches[..|batches| - 1]) + batches[|batches| - 1].ids
  }

  function AllRandomIds(batches: seq<Batch>): seq<nat>
    decreases |batches|
  {
    if batches == [] then [] else AllRandomIds(batches[..|batches| - 1]) + batches[|batches| - 1].randomIds
  }

  function TotalPaid(batches: seq<Batch>): int
    decreases |batches|
  {
    if batches == [] then 0 else TotalPaid(batches[..|batches| - 1]) + batches[|batches| - 1].starsPaid
  }

  lemma IdsAppend(a: seq<Item>, b: seq<Item>)
    ensures Ids(a + b) == Ids(a) + Ids(b)
  {}

  /** What one more run adds */
  lemma BatchesAppend(head: seq<seq<Item>>, run: seq<Item>, randomIds: seq<nat>, approved: int, price: nat)
    requires run != [] && |Flatten(head)| + |run| <= |randomIds|
    ensures var left := Remaining(head, approved, price);
            && Batches(head + [run], randomIds, approved, price)
               == Batches(head, randomIds, approved, price)
                  + [BatchOf(run, randomIds[|Flatten(head)|..], PaidFor(left, |run|, price))]
            && Remaining(head + [run], approved, price) == left - PaidFor(left, |run|, price)
  {
    hide Flatten, BatchOf, PaidFor;
    assert (head + [run])[..|head|] == head;
  }

  /** The requests carry every item once, in order, each with its own random id, each request with one peer's items. */
  lemma {:induction false} BatchesCarryAll(runs: seq<seq<Item>>, randomIds: seq<nat>, approved: int, price: nat)
    requires AreRuns(runs) && |Flatten(runs)| <= |randomIds|
    ensures var batches, items := Batches(runs, randomIds, approved, price), Flatten(runs);
            && |batches| == |runs|
            && AllIds(batches) == Ids(items)
            && AllRandomIds(batches) == randomIds[..|items|]
            && (forall i | 0 <= i < |batches| ::
                  && |batches[i].ids| == |batches[i].randomIds| == |runs[i]| > 0
                  && batches[i].from == runs[i][0].peer)
    decreases |runs|
  {
    hide PaidFor, Remaining, Batches, Ids, AreRuns, OnePeer, Follows, Flatten;
    if runs == [] {
      NoBatches(randomIds, approved, price);
    } else {
      var head, run := runs[..|runs| - 1], runs[|runs| - 1];
      assert runs == head + [run];
      LastRun(runs);
      NonEmptyRun(run);
      FlattenAppend(head, run);
      BatchesCarryAll(head, randomIds, approved, price);
      BatchesAppend(head, run, randomIds, approved, price);
      IdsAppend(Flatten(head), run);
      AddBatch(Batches(head, randomIds, approved, price),
               BatchOf(run, randomIds[|Flatten(head)|..], PaidFor(Remaining(head, approved, price), |run|, price)));
      assert randomIds[..|Flatten(head)|] + randomIds[|Flatten(head)|..][..|run|] == randomIds[..|Flatten(runs)|];
    }
  }

  lemma NoBatches(randomIds: seq<nat>, approved: int, price: nat)
    ensures Batches([], randomIds, approved, price) == [] && Remaining([], approved, price) == approved
    ensures Flatten<Item>([]) == [] && Ids([]) == []
  {}

  lemma AddBatch(batches: seq<Batch>, batch: Batch)
    ensures AllIds(batches + [batch]) == AllIds(batches) + batch.ids
    ensures AllRandomIds(batches + [batch]) == AllRandomIds(batches) + batch.randomIds
    ensures TotalPaid(batches + [batch]) == TotalPaid(batches) + batch.starsPaid
  {
    assert (batches + [batch])[..|batches|] == batches;
  }

  /** Conservation: what was approved is what was paid and what remains, whatever the prices. */
  lemma {:induction false} StarsAreConserved(runs: seq<seq<Item>>, randomIds: seq<nat>, approved: int, price: nat)
    requires AreRuns(runs) && |Flatten(runs)| <= |randomIds|
    ensures approved == TotalPaid(Batches(runs, randomIds, approved, price)) + Remaining(runs, approved, price)
    decreases |runs|
  {
    hide PaidFor, Remaining, Batches, Ids, AreRuns, OnePeer, Follows, Flatten;
    if runs == [] {
      NoBatches(randomIds, approved, price);
    } else {
      var head, run := runs[..|runs| - 1], runs[|runs| - 1];
      assert runs == head + [run];
      LastRun(runs);
      NonEmptyRun(run);
      FlattenAppend(head, run);
      StarsAreConserved(head, randomIds, approved, price);
      BatchesAppend(head, run, randomIds, approved, price);
      AddBatch(Batches(head, randomIds, approved, price),
               BatchOf(run, randomIds[|Flatten(head)|..], PaidFor(Remaining(head, approved, price), |run|, price)));
    }
  }

  /** The price of every run fits into 32 bits. */
  ghost predicate PricesFit(runs: seq<seq<Item>>, price: nat) { forall r | r in runs :: |r| * price < 0x8000_0000 }

  /** The whole forward pays its price, as far as the approved stars go. */
  lemma {:induction false} TotalIsThePrice(runs: seq<seq<Item>>, approved: nat, price: nat)
    requires PricesFit(runs, price)
    ensures Remaining(runs, approved, price) == approved - Min(approved, |Flatten(runs)| * price)
    decreases |runs|
  {
    hide ToInt32;
    if runs == [] {
      assert Flatten(runs) == [];
    } else {
      var head, run := runs[..|runs| - 1], runs[|runs| - 1];
      assert run in runs;
      TotalIsThePrice(head, approved, price);
      PriceOfParts(|Flatten(head)|, |run|, price);
      assert |run| * price < 0x8000_0000;
      assert |Flatten(runs)| == |Flatten(head)| + |run|;
    }
  }

  lemma PriceOfParts(a: nat, b: nat, price: nat)
    ensures (a + b) * price == a * price + b * price && a * price >= 0 && b * price >= 0
  {}

  /** One request pays its right price exactly when the price fits, or its wrapped value still covers the approved stars. */
  lemma PaysThePriceIff(approved: nat, count: nat, price: nat)
    requires approved < 0x8000_0000
    ensures PaidFor(approved, count, price) == Min(approved, count * price)
       <==> count * price < 0x8000_0000 || ToInt32(count * price) >= approved
  {
    hide ToInt32;
    var total := count * price;
    assert total >= 0;
    assert total < 0x8000_0000 ==> ToInt32(total) == total;
  }

  /** The prices as they are computed, in 32 bits, taken from the last run to the first: no sum that is still
      open falls below zero, and together they reach what was approved. */
  predicate Covered(runs: seq<seq<Item>>, approved: int, price: nat, sum: int)
    decreases |runs|
  {
    if runs == [] then approved <= sum
    else
      var more := sum + ToInt32(|runs[|runs| - 1]| * price);
      more >= 0 && Covered(runs[..|runs| - 1], approved, price, more)
  }

  lemma {:induction false} RemainingIsNoDebt(runs: seq<seq<Item>>, approved: nat, price: nat)
    ensures Remaining(runs, approved, price) >= 0
    decreases |runs|
  {
    hide ToInt32;
    if runs != [] {
      RemainingIsNoDebt(runs[..|runs| - 1], approved, price);
    }
  }

  lemma {:induction false} RemainingIsCovered(runs: seq<seq<Item>>, approved: nat, price: nat, sum: nat)
    ensures Covered(runs, approved, price, sum) <==> Remaining(runs, approved, price) <= sum
    decreases |runs|
  {
    hide ToInt32;
    if runs != [] {
      var head, run := runs[..|runs| - 1], runs[|runs| - 1];
      RemainingIsNoDebt(head, approved, price);
      if sum + ToInt32(|run| * price) >= 0 {
        RemainingIsCovered(head, approved, price, sum + ToInt32(|run| * price));
      }
    }
  }

  lemma {:induction false} RunIsPart(runs: seq<seq<Item>>, run: seq<Item>)
    requires run in runs
    ensures |run| <= |Flatten(runs)|
    decreases |runs|
  {
    if run != runs[|runs| - 1] {
      RunIsPart(runs[..|runs| - 1], run);
    }
  }

  lemma PriceOfMore(a: nat, b: nat, price: nat)
    requires a <= b
    ensures a * price <= b * price
  {}

  /** The whole forward pays its price exactly when the price of every run fits, or the wrapped prices still cover
      the approved stars. */
  lemma PaysTheTotalIff(runs: seq<seq<Item>>, approved: nat, price: nat)
    requires approved < 0x8000_0000
    ensures approved - Remaining(runs, approved, price) == Min(approved, |Flatten(runs)| * price)
       <==> PricesFit(runs, price) || Covered(runs, approved, price, 0)
  {
    hide Flatten, Remaining, Covered;
    if PricesFit(runs, price) {
      TotalIsThePrice(runs, approved, price);
    } else {
      var run :| run in runs && |run| * price >= 0x8000_0000;
      RunIsPart(runs, run);
      PriceOfMore(|run|, |Flatten(runs)|, price);
      RemainingIsNoDebt(runs, approved, price);
      RemainingIsCovered(runs, approved, price, 0);
    }
  }

  /** At prices of 32 bits: four items pay nothing, and three items or two pay less than nothing. */
  lemma WrappedPrices()
    ensures PaidFor(100, 4, 0x4000_0000) == 0
    ensures PaidFor(100, 3, 0x3000_0000) == -0x7000_0000
    ensures PaidFor(100, 2, 0x4000_0000) == -0x8000_0000
  {}

  /** A forward of four items of one peer that pays nothing, and one of three that leaves more than was approved */
  lemma WrappedForwards(item: Item)
    ensures var runs := [[item, item, item, item]];
            AreRuns(runs) && Remaining(runs, 100, 0x4000_0000) == 100 && Min(100, |Flatten(runs)| * 0x4000_0000) == 100
    ensures var runs := [[item, item, item]];
            AreRuns(runs) && Remaining(runs, 100, 0x3000_0000) == 100 + 0x7000_0000
  {
    WrappedPrices();
    RemainingOfOne([item, item, item, item], 100, 0x4000_0000);
    RemainingOfOne([item, item, item], 100, 0x3000_0000);
  }

  lemma RemainingOfOne(run: seq<Item>, approved: int, price: nat)
    ensures Remaining([run], approved, price) == approved - PaidFor(approved, |run|, price)
    ensures Flatten([run]) == run && (OnePeer(run) ==> AreRuns([run]))
  {
    hide PaidFor, OnePeer;
    assert [run][..0] == [];
  }

  /** A whole forward: every item once with its random id, what is paid and what remains, and when that is the price
      of all items together. */
  lemma WholeForward(items: seq<Item>, randomIds: seq<nat>, approved: nat, price: nat)
    requires |items| <= |randomIds| && approved < 0x8000_0000
    ensures var runs := Runs(items);
            var batches := Batches(runs, randomIds, approved, price);
            && AllIds(batches) == Ids(items) && AllRandomIds(batches) == randomIds[..|items|]
            && TotalPaid(batches) == approved - Remaining(runs, approved, price)
            && (TotalPaid(batches) == Min(approved, |items| * price)
                <==> PricesFit(runs, price) || Covered(runs, approved, price, 0))
  {
    hide Runs, Batches, Remaining, AllIds, AllRandomIds, TotalPaid, Flatten, AreRuns, PricesFit, Covered;
    RunsAreMaximal(items);
    BatchesCarryAll(Runs(items), randomIds, approved, price);
    StarsAreConserved(Runs(items), randomIds, approved, price);
    PaysTheTotalIff(Runs(items), approved, price);
  }

  // ----- The success callback -----

  /** `SharedCallback`, the requests it counts, and how often the callback was called */
  datatype Calls = Calls(wanted: bool, requestsLeft: int, inFlight: set<nat>, failed: set<nat>, callbacks: nat)

  function Sent(c: Calls, request: nat): Calls {
    c.(requestsLeft := if c.wanted then c.requestsLeft + 1 else c.requestsLeft, inFlight := c.inFlight + {request})
  }

  function SentAll(wanted: bool, count: nat): Calls
    decreases count
  {
    if count == 0 then Calls(wanted, 0, {}, {}, 0) else Sent(SentAll(wanted, count - 1), count - 1)
  }

  datatype Reply = Done(request: nat) | Fail(request: nat)

  function Replied(c: Calls, reply: Reply): Calls
    requires reply.request in c.inFlight
  {
    var landed := c.(inFlight := c.inFlight - {reply.request});
    match reply
    case Fail(request) => landed.(failed := c.failed + {request})
    case Done(_) =>
      if !c.wanted then landed
      else
        var left := c.requestsLeft - 1;
        landed.(requestsLeft := left, callbacks := if left == 0 then c.callbacks + 1 else c.callbacks)
  }

  predicate Possible(c: Calls, replies: seq<Reply>)
    decreases |replies|
  {
    replies == [] || (replies[0].request in c.inFlight && Possible(Replied(c, replies[0]), replies[1..]))
  }

  function AllReplied(c: Calls, replies: seq<Reply>): Calls
    requires Possible(c, replies)
    decreases |replies|
  {
    if replies == [] then c else AllReplied(Replied(c, replies[0]), replies[1..])
  }

  /** The callback was called exactly if nothing is left in flight and nothing failed; `sent` is the number of requests. */
  ghost predicate CallsInv(c: Calls) {
    && c.inFlight !! c.failed
    && (c.wanted ==> c.requestsLeft == |c.inFlight| + |c.failed|)
    && c.callbacks == if c.wanted && c.inFlight == {} && c.failed == {} then 1 else 0
  }

  lemma {:induction false} SentAllInv(wanted: bool, count: nat)
    ensures var c := SentAll(wanted, count);
            && (forall i :: i in c.inFlight <==> 0 <= i < count) && c.failed == {} && c.callbacks == 0 && c.wanted == wanted
            && |c.inFlight| == count && (wanted ==> c.requestsLeft == count)
    decreases count
  {
    if count > 0 {
      SentAllInv(wanted, count - 1);
    }
  }

  lemma ReplyKeepsCalls(c: Calls, reply: Reply)
    requires CallsInv(c) && reply.request in c.inFlight
    ensures CallsInv(Replied(c, reply))
  {
    var landed := Replied(c, reply);
    assert |landed.inFlight| == |c.inFlight| - 1;
    assert landed.failed == {} <==> |landed.failed| == 0;
  }

  lemma {:induction false} RepliesKeepCalls(c: Calls, replies: seq<Reply>)
    requires CallsInv(c) && Possible(c, replies)
    ensures CallsInv(AllReplied(c, replies)) && AllReplied(c, replies).wanted == c.wanted
    decreases |replies|
  {
    hide CallsInv;
    if replies != [] {
      ReplyKeepsCalls(c, replies[0]);
      RepliesKeepCalls(Replied(c, replies[0]), replies[1..]);
    }
  }

  /** Every reply lands, and what failed is known to have failed. */
  lemma {:induction false} RepliesLand(c: Calls, replies: seq<Reply>)
    requires Possible(c, replies)
    ensures var t := AllReplied(c, replies);
            && (forall r :: r in t.inFlight <==> r in c.inFlight && Done(r) !in replies && Fail(r) !in replies)
            && (forall r :: r in t.failed <==> r in c.failed || Fail(r) in replies)
    decreases |replies|
  {
    if replies != [] {
      RepliesLand(Replied(c, replies[0]), replies[1..]);
      assert replies == [replies[0]] + replies[1..];
    }
  }

  /** Once for a forward whose requests all succeed, in whatever order the replies come, and never otherwise. */
  lemma CalledOnceIffAllSucceed(count: nat, replies: seq<Reply>)
    requires count > 0 && Possible(SentAll(true, count), replies)
    ensures var c := AllReplied(SentAll(true, count), replies);
            c.callbacks == if c.inFlight == {} && c.failed == {} then 1 else 0
  {
    SentAllInv(true, count);
    assert 0 in SentAll(true, count).inFlight;
    RepliesKeepCalls(SentAll(true, count), replies);
  }

  // ----- The code -----

  class Forwarding {
    const wanted: bool
    var starsApproved: int
    var requestsLeft: int
    var callbacks: nat
    var sent: seq<Batch>
    var documents: seq<nat>
    ghost var inFlight: set<nat>
    ghost var failed: set<nat>

    constructor (wanted: bool, starsApproved: int)
      ensures this.wanted == wanted && this.starsApproved == starsApproved
      ensures sent == [] && documents == [] && Protocol() == SentAll(wanted, 0)
    {
      this.wanted, this.starsApproved := wanted, starsApproved;
      requestsLeft, callbacks, sent, documents, inFlight, failed := 0, 0, [], [], {}, {};
    }

    ghost function Protocol(): Calls
      reads this
    {
      Calls(wanted, requestsLeft, inFlight, failed, callbacks)
    }

    /** `sendAccumulated` */
    method SendAccumulated(from: Peer, ids: seq<int>, randomIds: seq<nat>, price: nat)
      modifies this`starsApproved, this`requestsLeft, this`sent, this`inFlight
      ensures var paid := PaidFor(old(starsApproved), |ids|, price);
              sent == old(sent) + [Batch(from, ids, randomIds, paid)] && starsApproved == old(starsApproved) - paid
      ensures Protocol() == Sent(old(Protocol()), |old(sent)|)
    {
      if wanted {
        requestsLeft := requestsLeft + 1;
      }
      var starsPaid := Min(starsApproved, ToInt32(|ids| * price));
      if starsPaid != 0 {
        starsApproved := starsApproved - starsPaid;
      }
      inFlight := inFlight + {|sent|};
      sent := sent + [Batch(from, ids, randomIds, starsPaid)];
    }

    /** Takes the saved music out of the draft. */
    method SendMusic(items: seq<Item>) returns (left: seq<Item>)
      modifies this`documents
      ensures left == Kept(items) && documents == old(documents) + Documents(items)
    {
      left := items;
      var i := 0;
      while i < |left|
        invariant 0 <= i <= |left|
        invariant left[..i] + Kept(left[i..]) == Kept(items)
        invariant documents + Documents(left[i..]) == old(documents) + Documents(items)
        decreases |left| - i
      {
        ghost var before, sentBefore := left, documents;
        if left[i].savedMusic {
          documents := documents + [left[i].document];
          left := left[..i] + left[i + 1..];
          assert left[i..] == before[i..][1..] && left[..i] == before[..i];
          assert sentBefore + ([before[i].document] + Documents(left[i..])) == documents + Documents(left[i..]);
        } else {
          i := i + 1;
          assert left[i..] == before[i - 1..][1..] && left[..i] == before[..i - 1] + [before[i - 1]];
        }
      }
      assert left[i..] == [] && left[..i] == left;
    }

    /** The whole call; `randomIds` are the random values drawn, one for an item. A draft that is handed over, for
        a full or an intelligent forward, is not sent here, and its callback is never called. */
    method ForwardMessages(items: seq<Item>, randomIds: seq<nat>, price: nat, handedOver: bool)
      requires |Kept(items)| <= |randomIds|
      requires sent == [] && documents == [] && Protocol() == SentAll(wanted, 0)
      modifies this
      ensures handedOver
          ==> documents == [] && sent == [] && Protocol() == SentAll(wanted, 0) && starsApproved == old(starsApproved)
      ensures !handedOver ==> documents == Documents(items)
      ensures !handedOver && Kept(items) == []
          ==> sent == [] && Protocol() == SentAll(wanted, 0).(callbacks := if wanted then 1 else 0)
      ensures !handedOver && Kept(items) != [] ==>
                && sent == Batches(Runs(Kept(items)), randomIds, old(starsApproved), price)
                && Protocol() == SentAll(wanted, |sent|)
                && starsApproved == Remaining(Runs(Kept(items)), old(starsApproved), price)
    {
      hide PaidFor, Batches, Remaining, Runs, Ids, AreRuns, Follows, OnePeer, Flatten, Kept, Documents, Cut;
      if handedOver {
        return;
      }
      var left := SendMusic(items);
      if left == [] {
        if wanted {
          callbacks := callbacks + 1;
        }
        return;
      }
      ghost var approved := starsApproved;
      var forwardFrom := left[0].peer;
      var ids: seq<int>, randoms: seq<nat> := [], [];
      ghost var done: seq<seq<Item>>, run: seq<Item> := [], [];
      NoBatches(randomIds, approved, price);
      assert Cut(left[..0], done, run) by { NothingCut(); }
      for i := 0 to |left|
        invariant Cut(left[..i], done, run) && i == |Flatten(done)| + |run|
        invariant (i == 0 ==> run == [] && forwardFrom == left[0].peer)
        invariant run != [] ==> run[0].peer == forwardFrom
        invariant ids == Ids(run) && randoms == randomIds[|Flatten(done)|..i]
        invariant sent == Batches(done, randomIds, approved, price) && |sent| == |done|
        invariant starsApproved == Remaining(done, approved, price)
        invariant Protocol() == SentAll(wanted, |sent|)
        invariant documents == Documents(items)
      {
        var item := left[i];
        var randomId := randomIds[i];
        assert left[..i + 1] == left[..i] + [item];
        CutNext(left[..i], item, done, run);
        if forwardFrom != item.peer {
          BatchesAppend(done, run, randomIds, approved, price);
          FlattenAppend(done, run);
          assert randoms == randomIds[|Flatten(done)|..][..|run|];
          SendAccumulated(forwardFrom, ids, randoms, price);
          done, run := done + [run], [];
          ids, randoms := [], [];
          forwardFrom := item.peer;
          assert |Flatten(done)| == i;
        }
        assert randomIds[|Flatten(done)|..i] + [randomId] == randomIds[|Flatten(done)|..i + 1];
        assert run == [] ==> run + [item] == [item];
        IdsAppend(run, [item]);
        OneId(item);
        ids := ids + [item.id];
        randoms := randoms + [randomId];
        run := run + [item];
      }
      assert left[..|left|] == left;
      CutIsRuns(left, done, run);
      BatchesAppend(done, run, randomIds, approved, price);
      FlattenAppend(done, run);
      assert randoms == randomIds[|Flatten(done)|..][..|run|];
      SendAccumulated(forwardFrom, ids, randoms, price);
    }

    method Succeeded(request: nat)
      requires request in inFlight
      modifies this`requestsLeft, this`callbacks, this`inFlight
      ensures Protocol() == Replied(old(Protocol()), Done(request))
    {
      inFlight := inFlight - {request};
      if wanted {
        requestsLeft := requestsLeft - 1;
        if requestsLeft == 0 {
          callbacks := callbacks + 1;
        }
      }
    }

    method Failed(request: nat)
      requires request in inFlight
      modifies this`inFlight, this`failed
      ensures Protocol() == Replied(old(Protocol()), Fail(request))
    {
      inFlight, failed := inFlight - {request}, failed + {request};
    }
  }

  // ----- The accumulating loop -----

  /** The finished runs, and the run that is being accumulated */
  predicate Cut(items: seq<Item>, done: seq<seq<Item>>, run: seq<Item>) {
    && (items == [] <==> run == [])
    && (run == [] ==> done == [])
    && (run != [] ==> Runs(items) == done + [run])
  }

  lemma CutNext(items: seq<Item>, item: Item, done: seq<seq<Item>>, run: seq<Item>)
    requires Cut(items, done, run)
    ensures items == [] <==> run == []
    ensures run == [] || run[0].peer == item.peer ==> Cut(items + [item], done, run + [item])
    ensures run != [] && run[0].peer != item.peer ==> Cut(items + [item], done + [run], [item])
  {
    var more := items + [item];
    assert more[..|more| - 1] == items;
    assert [] + [item] == [item];
    if run != [] {
      assert Runs(items)[..|done|] == done;
    }
  }

  lemma NothingCut()
    ensures Cut([], [], [])
  {}

  lemma CutIsRuns(items: seq<Item>, done: seq<seq<Item>>, run: seq<Item>)
    requires items != [] && Cut(items, done, run)
    ensures Runs(items) == done + [run] && run != []
  {}

  lemma OneId(item: Item)
    ensures Ids([item]) == [item.id]
  {}
}
