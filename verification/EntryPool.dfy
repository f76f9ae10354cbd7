/**
 The fixed pool of capture entries. Pointers to them move between two bounded
 FIFO queues, the CSI callback and the send task, which interleave freely: a
 queue operation is one step, and so is filling or sending the entry in hand.
 */
module EntryPool {
  import opened Wrappers
  import opened WireFormat

  const QUEUE_LEN: nat := 32

  /** Where the callback and the send task stand. */
  datatype Callback = Waiting | Holding(entry: nat) | Captured(entry: nat, e: Entry)
  datatype Sender = Ready | Has(entry: nat) | Done(entry: nat)

  /** What the send task did with an entry: `sent` tells whether the datagram went out. */
  datatype Outcome = Outcome(e: Entry, sent: bool)

  /** The pool and its history: what was queued, and what the send task did with it. */
  datatype Pool = Pool(free: seq<nat>, full: seq<nat>, callback: Callback, sender: Sender, slots: seq<Entry>,
                       queued: seq<Entry>, outcomes: seq<Outcome>)

  /** One step of the callback or of the send task. */
  datatype Step = Take | Write(e: Entry) | Queue | Fetch | Transmit(sent: bool) | Return

  function InCallback(c: Callback): seq<nat> {
    if c.Waiting? then [] else [c.entry]
  }

  function InSender(s: Sender): seq<nat> {
    if s.Ready? then [] else [s.entry]
  }

  /** Everything that holds an entry. */
  function Held(p: Pool): multiset<nat> {
    multiset(p.free) + multiset(p.full) + multiset(InCallback(p.callback)) + multiset(InSender(p.sender))
  }

  /** Each of the entries is in exactly one place. */
  ghost predicate EachOnce(p: Pool) {
    |p.slots| == QUEUE_LEN && forall i: nat :: Held(p)[i] == if 0 <= i < QUEUE_LEN then 1 else 0
  }

  function Entries(outcomes: seq<Outcome>): seq<Entry> {
    seq(|outcomes|, i requires 0 <= i < |outcomes| => outcomes[i].e)
  }

  function Loaded(slots: seq<Entry>, at: seq<nat>): seq<Entry>
    requires forall i :: 0 <= i < |at| ==> at[i] < |slots|
  {
    seq(|at|, i requires 0 <= i < |at| => slots[at[i]])
  }

  /** The entry the send task has not dealt with yet. */
  function Unsent(p: Pool): seq<nat> {
    if p.sender.Has? then [p.sender.entry] else []
  }

  ghost predicate InRange(p: Pool) {
    && (forall i :: 0 <= i < |p.full| ==> p.full[i] < |p.slots|)
    && (forall i :: 0 <= i < |p.free| ==> p.free[i] < |p.slots|)
    && (p.sender.Ready? || p.sender.entry < |p.slots|)
    && (p.callback.Waiting? || p.callback.entry < |p.slots|)
  }

  /** What was queued is what the send task dealt with, has in hand and will find in the queue, in that order. */
  ghost predicate InOrder(p: Pool) {
    && InRange(p)
    && p.queued == Entries(p.outcomes) + Loaded(p.slots, Unsent(p)) + Loaded(p.slots, p.full)
  }

  ghost predicate Valid(p: Pool) {
    && EachOnce(p) && InOrder(p)
    && (p.callback.Captured? ==> p.slots[p.callback.entry] == p.callback.e)
  }

  // ------------------------------------------------------------------ consequences

  /** Fewer than `n` numbers, none twice. */
  lemma {:induction false} CountBounds(s: seq<nat>, n: nat)
    requires forall i :: 0 <= i < |s| ==> s[i] < n
    requires forall i, j :: 0 <= i < j < |s| ==> s[i] != s[j]
    ensures |s| <= n
    decreases n
  {
    if s != [] {
      assert s[0] < n;
      if j :| 0 <= j < |s| && s[j] == n - 1 {
        CountBounds(s[..j] + s[j + 1..], n - 1);
      } else {
        CountBounds(s, n - 1);
      }
    }
  }

  lemma TwiceCounts(s: seq<nat>, i: nat, j: nat)
    requires i < j < |s| && s[i] == s[j]
    ensures multiset(s)[s[i]] >= 2
  {
    assert s == s[..i] + [s[i]] + s[i + 1..];
    assert s[j] in s[i + 1..] by { assert s[i + 1..][j - i - 1] == s[j]; }
    assert s[j] in multiset(s[i + 1..]);
  }

  /** No queue and no hand holds more than all entries. */
  lemma HeldFits(p: Pool, all: seq<nat>)
    requires EachOnce(p) && multiset(all) <= Held(p)
    ensures |all| <= QUEUE_LEN
  {
    forall i, j | 0 <= i < j < |all| ensures all[i] != all[j] {
      if all[i] == all[j] {
        TwiceCounts(all, i, j);
        assert false;
      }
    }
    forall i | 0 <= i < |all| ensures all[i] < QUEUE_LEN {
      assert all[i] in multiset(all);
      assert Held(p)[all[i]] >= 1;
    }
    CountBounds(all, QUEUE_LEN);
  }

  /** With an entry in the callback's hand the full queue has room: its send never fails. */
  lemma FullQueueHasRoom(p: Pool)
    requires EachOnce(p) && !p.callback.Waiting?
    ensures |p.full| < QUEUE_LEN
  {
    HeldFits(p, p.full + [p.callback.entry]);
  }

  /** With an entry in the send task's hand the free queue has room: giving it back never blocks. */
  lemma FreeQueueHasRoom(p: Pool)
    requires EachOnce(p) && !p.sender.Ready?
    ensures |p.free| < QUEUE_LEN
  {
    HeldFits(p, p.free + [p.sender.entry]);
  }

  /** The two ends never touch the same entry. */
  lemma HandsAreApart(p: Pool)
    requires EachOnce(p) && !p.callback.Waiting?
    ensures !p.sender.Ready? ==> p.sender.entry != p.callback.entry
    ensures p.callback.entry !in p.full && p.callback.entry !in p.free && p.callback.entry < QUEUE_LEN
  {
    var entry := p.callback.entry;
    assert Held(p)[entry] >= 1;
    assert entry in p.full ==> multiset(p.full)[entry] >= 1;
    assert entry in p.free ==> multiset(p.free)[entry] >= 1;
  }

  // -------------------------------------------------------------- what a step does

  function Stepped(p: Pool, step: Step): Pool {
    match step
    case Take =>
      if p.callback.Waiting? && p.free != [] then p.(callback := Holding(p.free[0]), free := p.free[1..]) else p
    case Write(e) =>
      if p.callback.Holding? && p.callback.entry < |p.slots| then
        p.(callback := Captured(p.callback.entry, e), slots := p.slots[p.callback.entry := e])
      else p
    case Queue =>
      if p.callback.Captured? then
        p.(callback := Waiting, full := p.full + [p.callback.entry], queued := p.queued + [p.callback.e])
      else p
    case Fetch =>
      if p.sender.Ready? && p.full != [] then p.(sender := Has(p.full[0]), full := p.full[1..]) else p
    case Transmit(sent) =>
      if p.sender.Has? && p.sender.entry < |p.slots| then
        p.(sender := Done(p.sender.entry), outcomes := p.outcomes + [Outcome(p.slots[p.sender.entry], sent)])
      else p
    case Return =>
      if p.sender.Done? then p.(sender := Ready, free := p.free + [p.sender.entry]) else p
  }

  function AfterSteps(p: Pool, steps: List<Step>): Pool {
    if steps.Nil? then p else Stepped(AfterSteps(p, steps.init), steps.last)
  }

  /** What was captured but not queued yet. */
  function Pending(c: Callback): seq<Entry> {
    if c.Captured? then [c.e] else []
  }

  /** The samples written along the way: those whose write finds an entry in the callback's hand. */
  function Written(p: Pool, steps: List<Step>): seq<Entry> {
    if steps.Nil? then []
    else Written(p, steps.init) +
         if steps.last.Write? && AfterSteps(p, steps.init).callback.Holding? then [steps.last.e] else []
  }

  lemma StepKeepsValid(p: Pool, step: Step)
    requires Valid(p)
    ensures Valid(Stepped(p, step))
  {
    match step
    case Take => if p.callback.Waiting? && p.free != [] { FreeIsTaken(p); }
    case Write(e) => if p.callback.Holding? { EntryIsFilled(p, e); }
    case Queue => if p.callback.Captured? { EntryIsQueued(p); }
    case Fetch => if p.sender.Ready? && p.full != [] { FullIsTaken(p); }
    case Transmit(sent) => if p.sender.Has? { EntryIsSent(p, sent); }
    case Return => if p.sender.Done? { EntryIsFree(p); }
  }

  lemma StepConserves(p: Pool, step: Step)
    requires Valid(p)
    ensures Stepped(p, step).queued + Pending(Stepped(p, step).callback) ==
            p.queued + Pending(p.callback) + if step.Write? && p.callback.Holding? then [step.e] else []
    ensures p.queued <= Stepped(p, step).queued && p.outcomes <= Stepped(p, step).outcomes
  {
  }

  /** In every interleaving exactly the samples written are queued, in order, and nothing earlier is forgotten. */
  lemma {:induction false} WritesAreQueued(p: Pool, steps: List<Step>)
    requires Valid(p)
    ensures Valid(AfterSteps(p, steps))
    ensures var p' := AfterSteps(p, steps);
      && p'.queued + Pending(p'.callback) == p.queued + Pending(p.callback) + Written(p, steps)
      && p.queued <= p'.queued && p.outcomes <= p'.outcomes
  {
    if steps.Snoc? {
      WritesAreQueued(p, steps.init);
      StepKeepsValid(AfterSteps(p, steps.init), steps.last);
      StepConserves(AfterSteps(p, steps.init), steps.last);
    }
  }

  // ------------------------------------------------------------------------- steps

  class EntryPool {
    var free: seq<nat>
    var full: seq<nat>
    const slots: array<Entry>
    var callback: Callback
    var sender: Sender
    ghost var queued: seq<Entry>
    ghost var outcomes: seq<Outcome>

    ghost function View(): Pool
      reads this, slots
    {
      Pool(free, full, callback, sender, slots[..], queued, outcomes)
    }

    constructor (blank: Entry)
      ensures Valid(View()) && fresh(slots) && queued == [] && outcomes == []
    {
      free := seq(QUEUE_LEN, i => i);
      full, callback, sender, queued, outcomes := [], Waiting, Ready, [], [];
      slots := new Entry[QUEUE_LEN](_ => blank);
      new;
      AllFree(free);
    }

    /** The callback takes a free entry; without one the CSI is dropped. */
    method TakeFree() returns (taken: bool)
      requires Valid(View()) && callback.Waiting?
      modifies this
      ensures Valid(View()) && taken == (old(free) != [])
      ensures View() == if taken then old(View()).(callback := Holding(old(free)[0]), free := old(free)[1..]) else old(View())
    {
      taken := free != [];
      if taken {
        FreeIsTaken(View());
        callback := Holding(free[0]);
        free := free[1..];
      }
    }

    /** It writes the sample into the entry. */
    method Fill(e: Entry)
      requires Valid(View()) && callback.Holding?
      modifies this, slots
      ensures Valid(View())
      ensures View() == old(View()).(callback := Captured(old(callback).entry, e), slots := old(slots[..])[old(callback).entry := e])
    {
      EntryIsFilled(View(), e);
      slots[callback.entry] := e;
      assert slots[..] == old(slots[..])[callback.entry := e];
      callback := Captured(callback.entry, e);
    }

    /** It sends the entry to the full queue, which never fails. */
    method Enqueue()
      requires Valid(View()) && callback.Captured?
      modifies this
      ensures Valid(View()) && |old(full)| < QUEUE_LEN
      ensures View() == old(View()).(callback := Waiting, full := old(full) + [old(callback).entry],
                                     queued := old(queued) + [old(callback).e])
    {
      FullQueueHasRoom(View());
      EntryIsQueued(View());
      full := full + [callback.entry];
      queued := queued + [slots[callback.entry]];
      callback := Waiting;
    }

    /** The send task takes the oldest entry. */
    method TakeFull()
      requires Valid(View()) && sender.Ready? && full != []
      modifies this
      ensures Valid(View())
      ensures View() == old(View()).(sender := Has(old(full)[0]), full := old(full)[1..])
    {
      FullIsTaken(View());
      sender := Has(full[0]);
      full := full[1..];
    }

    /** It sends the entry's datagram, or fails to: no socket, or a send error. */
    method Send(sent: bool)
      requires Valid(View()) && sender.Has?
      modifies this
      ensures Valid(View())
      ensures View() == old(View()).(sender := Done(old(sender).entry),
                                     outcomes := old(outcomes) + [Outcome(slots[old(sender).entry], sent)])
    {
      EntryIsSent(View(), sent);
      outcomes := outcomes + [Outcome(slots[sender.entry], sent)];
      sender := Done(sender.entry);
    }

    /** And gives the entry back. */
    method GiveBack()
      requires Valid(View()) && sender.Done?
      modifies this
      ensures Valid(View()) && |old(free)| < QUEUE_LEN
      ensures View() == old(View()).(sender := Ready, free := old(free) + [old(sender).entry])
    {
      FreeQueueHasRoom(View());
      EntryIsFree(View());
      free := free + [sender.entry];
      sender := Ready;
    }

    /** One step of either end; a step whose end is not there yet waits. */
    method StepOnce(step: Step)
      requires Valid(View())
      modifies this, slots
      ensures Valid(View()) && View() == Stepped(old(View()), step)
    {
      match step
      case Take => if callback.Waiting? { var _ := TakeFree(); }
      case Write(e) => if callback.Holding? { Fill(e); }
      case Queue => if callback.Captured? { Enqueue(); }
      case Fetch => if sender.Ready? && full != [] { TakeFull(); }
      case Transmit(sent) => if sender.Has? { Send(sent); }
      case Return => if sender.Done? { GiveBack(); }
    }

    /**
     Any interleaving of the two. What was written, and nothing else, is queued after what
     was queued before; earlier outcomes stay; datagrams leave in capture order.
     */
    method Interleave(steps: seq<Step>)
      requires Valid(View())
      modifies this, slots
      ensures Valid(View()) && View() == AfterSteps(old(View()), ListOf(steps))
      ensures queued + Pending(callback) == old(queued + Pending(callback)) + Written(old(View()), ListOf(steps))
      ensures old(queued) <= queued && old(outcomes) <= outcomes && Subsequence(Sent(outcomes), queued)
    {
      for i := 0 to |steps|
        invariant Valid(View()) && View() == AfterSteps(old(View()), ListOf(steps[..i]))
      {
        assert steps[..i + 1][..i] == steps[..i];
        StepOnce(steps[i]);
      }
      assert steps[..|steps|] == steps;
      WritesAreQueued(old(View()), ListOf(steps));
      SentInCaptureOrder(View());
    }
  }

  lemma AllFree(free: seq<nat>)
    requires |free| == QUEUE_LEN && forall i :: 0 <= i < QUEUE_LEN ==> free[i] == i
    ensures forall i: nat :: multiset(free)[i] == if i < QUEUE_LEN then 1 else 0
  {
    forall i: nat ensures multiset(free)[i] == if i < QUEUE_LEN then 1 else 0 {
      CountsUpTo(free, QUEUE_LEN, i);
      assert free[..QUEUE_LEN] == free;
    }
  }

  lemma {:induction false} CountsUpTo(free: seq<nat>, n: nat, i: nat)
    requires n <= |free| && forall k :: 0 <= k < n ==> free[k] == k
    ensures multiset(free[..n])[i] == if i < n then 1 else 0
  {
    if n > 0 {
      CountsUpTo(free, n - 1, i);
      assert free[..n] == free[..n - 1] + [free[n - 1]];
    }
  }

  lemma Head(s: seq<nat>)
    requires s != []
    ensures multiset(s) == multiset{s[0]} + multiset(s[1..])
  {
    assert s == [s[0]] + s[1..];
  }

  lemma FreeIsTaken(p: Pool)
    requires Valid(p) && p.callback.Waiting? && p.free != []
    ensures Valid(p.(callback := Holding(p.free[0]), free := p.free[1..]))
  {
    var p' := p.(callback := Holding(p.free[0]), free := p.free[1..]);
    Head(p.free);
    assert Held(p') == Held(p);
  }

  lemma EntryIsFilled(p: Pool, e: Entry)
    requires Valid(p) && p.callback.Holding?
    ensures Valid(p.(callback := Captured(p.callback.entry, e), slots := p.slots[p.callback.entry := e]))
  {
    var p' := p.(callback := Captured(p.callback.entry, e), slots := p.slots[p.callback.entry := e]);
    HandsAreApart(p);
    assert Held(p') == Held(p);
    assert Loaded(p'.slots, p.full) == Loaded(p.slots, p.full);
    assert Loaded(p'.slots, Unsent(p)) == Loaded(p.slots, Unsent(p));
  }

  lemma EntryIsQueued(p: Pool)
    requires Valid(p) && p.callback.Captured?
    ensures Valid(p.(callback := Waiting, full := p.full + [p.callback.entry], queued := p.queued + [p.slots[p.callback.entry]]))
  {
    var p' := p.(callback := Waiting, full := p.full + [p.callback.entry], queued := p.queued + [p.slots[p.callback.entry]]);
    assert Held(p') == Held(p);
    assert Loaded(p.slots, p'.full) == Loaded(p.slots, p.full) + [p.slots[p.callback.entry]];
  }

  lemma FullIsTaken(p: Pool)
    requires Valid(p) && p.sender.Ready? && p.full != []
    ensures Valid(p.(sender := Has(p.full[0]), full := p.full[1..]))
  {
    var p' := p.(sender := Has(p.full[0]), full := p.full[1..]);
    Head(p.full);
    assert Held(p') == Held(p);
    FullIsTakenInOrder(p);
  }

  lemma FullIsTakenInOrder(p: Pool)
    requires InOrder(p) && p.sender.Ready? && p.full != []
    ensures InOrder(p.(sender := Has(p.full[0]), full := p.full[1..]))
  {
    var entry, rest := p.full[0], p.full[1..];
    assert Loaded(p.slots, p.full) == [p.slots[entry]] + Loaded(p.slots, rest);
    assert Loaded(p.slots, [entry]) == [p.slots[entry]];
    assert Loaded(p.slots, []) == [];
  }

  lemma EntryIsSent(p: Pool, sent: bool)
    requires Valid(p) && p.sender.Has?
    ensures Valid(p.(sender := Done(p.sender.entry), outcomes := p.outcomes + [Outcome(p.slots[p.sender.entry], sent)]))
  {
    var p' := p.(sender := Done(p.sender.entry), outcomes := p.outcomes + [Outcome(p.slots[p.sender.entry], sent)]);
    assert Held(p') == Held(p);
    assert Entries(p'.outcomes) == Entries(p.outcomes) + Loaded(p.slots, Unsent(p));
  }

  lemma EntryIsFree(p: Pool)
    requires Valid(p) && p.sender.Done?
    ensures Valid(p.(sender := Ready, free := p.free + [p.sender.entry]))
  {
    var p' := p.(sender := Ready, free := p.free + [p.sender.entry]);
    assert Held(p') == Held(p);
  }

  // ------------------------------------------------------------------------- order

  /** The datagrams that went out. */
  function Sent(outcomes: seq<Outcome>): seq<Entry> {
    if outcomes == [] then []
    else
      var n := |outcomes| - 1;
      Sent(outcomes[..n]) + if outcomes[n].sent then [outcomes[n].e] else []
  }

  /** `part` is `all` with some elements left out. */
  ghost predicate Subsequence(part: seq<Entry>, all: seq<Entry>) {
    if part == [] then true
    else if all == [] then false
    else
      || (part[|part| - 1] == all[|all| - 1] && Subsequence(part[..|part| - 1], all[..|all| - 1]))
      || Subsequence(part, all[..|all| - 1])
  }

  lemma {:induction false} SentIsSubsequence(outcomes: seq<Outcome>, more: seq<Entry>)
    ensures Subsequence(Sent(outcomes), Entries(outcomes) + more)
    decreases |outcomes|, |more|
  {
    var all := Entries(outcomes) + more;
    if more != [] {
      SentIsSubsequence(outcomes, more[..|more| - 1]);
      assert all[..|all| - 1] == Entries(outcomes) + more[..|more| - 1];
    } else if outcomes != [] {
      var before := outcomes[..|outcomes| - 1];
      SentIsSubsequence(before, []);
      assert all[..|all| - 1] == Entries(before) + [];
      assert Entries(before) + [] == Entries(before);
      if outcomes[|outcomes| - 1].sent {
        assert Sent(outcomes)[..|Sent(outcomes)| - 1] == Sent(before);
      } else {
        assert Sent(outcomes) == Sent(before);
      }
    }
  }

  /** Datagrams leave in the order, and with the content, in which their samples were captured. */
  lemma SentInCaptureOrder(p: Pool)
    requires Valid(p)
    ensures Subsequence(Sent(p.outcomes), p.queued)
  {
    SentIsSubsequence(p.outcomes, Loaded(p.slots, Unsent(p)) + Loaded(p.slots, p.full));
    assert p.queued == Entries(p.outcomes) + (Loaded(p.slots, Unsent(p)) + Loaded(p.slots, p.full));
  }

  // ------------------------------------------------------------------------ progress

  /** From a waiting callback and a free entry, three steps queue the sample. */
  lemma SampleIsQueued(p: Pool, e: Entry)
    requires Valid(p) && p.callback.Waiting? && p.free != []
    ensures var p' := AfterSteps(p, Snoc(Snoc(Snoc(Nil, Take), Write(e)), Queue));
            p'.callback.Waiting? && p'.queued == p.queued + [e] && |p'.full| == |p.full| + 1
  {
    var taken := Stepped(p, Take);
    StepKeepsValid(p, Take);
    HandsAreApart(taken);
    var written := Stepped(taken, Write(e));
    assert AfterSteps(p, Snoc(Nil, Take)) == taken;
    assert AfterSteps(p, Snoc(Snoc(Nil, Take), Write(e))) == written;
  }

  /** The send task's loop, so many times. */
  function Rounds(n: nat): List<Step> {
    if n == 0 then Nil else Snoc(Snoc(Snoc(Rounds(n - 1), Fetch), Transmit(true)), Return)
  }

  function Round(p: Pool): Pool {
    Stepped(Stepped(Stepped(p, Fetch), Transmit(true)), Return)
  }

  lemma AfterRound(p: Pool, steps: List<Step>)
    ensures AfterSteps(p, Snoc(Snoc(Snoc(steps, Fetch), Transmit(true)), Return)) == Round(AfterSteps(p, steps))
  {
    assert AfterSteps(p, Snoc(steps, Fetch)) == Stepped(AfterSteps(p, steps), Fetch);
    assert AfterSteps(p, Snoc(Snoc(steps, Fetch), Transmit(true))) == Stepped(AfterSteps(p, Snoc(steps, Fetch)), Transmit(true));
  }

  lemma OneRound(p: Pool)
    requires Valid(p) && p.sender.Ready? && p.full != []
    ensures var p' := Round(p);
            Valid(p') && p'.sender.Ready? && |p'.full| == |p.full| - 1 && p'.queued == p.queued
  {
    StepKeepsValid(p, Fetch);
    var fetched := Stepped(p, Fetch);
    StepKeepsValid(fetched, Transmit(true));
    StepKeepsValid(Stepped(fetched, Transmit(true)), Return);
  }

  /** `n` rounds later. */
  ghost predicate Drained(p: Pool, n: nat, p': Pool) {
    Valid(p') && p'.sender.Ready? && |p'.full| == |p.full| - n && p'.queued == p.queued
  }

  lemma DrainedOnce(p: Pool, n: nat, m: Pool)
    requires Drained(p, n, m) && n < |p.full|
    ensures Drained(p, n + 1, Round(m))
  {
    OneRound(m);
  }

  lemma {:induction false} RoundsDrain(p: Pool, n: nat)
    requires Valid(p) && p.sender.Ready? && n <= |p.full|
    ensures Drained(p, n, AfterSteps(p, Rounds(n)))
  {
    if n > 0 {
      RoundsDrain(p, n - 1);
      AfterRound(p, Rounds(n - 1));
      DrainedOnce(p, n - 1, AfterSteps(p, Rounds(n - 1)));
    }
  }

  /** Left to itself, the send task deals with everything queued, in order. */
  lemma QueueIsDrained(p: Pool)
    requires Valid(p) && p.sender.Ready?
    ensures Entries(AfterSteps(p, Rounds(|p.full|)).outcomes) == p.queued
  {
    RoundsDrain(p, |p.full|);
    var p' := AfterSteps(p, Rounds(|p.full|));
    assert Loaded(p'.slots, Unsent(p')) == [] && Loaded(p'.slots, p'.full) == [];
  }
}
