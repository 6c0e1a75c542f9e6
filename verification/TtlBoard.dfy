/**
 A message board whose messages live for two minutes: an expiring queue with one timer and a
 cached, length-framed snapshot. Times are nanoseconds; bodies are written byte by byte.
 */
module TtlBoard {
  import opened Basics

  const SECOND: int := 1000000000
  const TTL: int := 120 * SECOND

  datatype Message = Message(body: string, expiresAt: int)

  /** A pending timer: when it fires, and the clock reading it was armed at. */
  datatype Timer = Timer(due: int, armedAt: int)

  datatype State = State(messages: seq<Message>, snapshot: string, timer: Option<Timer>)

  const EMPTY: State := State([], "", None)

  function Max(a: int, b: int): int { if a < b then b else a }

  // ---------- what each step does ----------

  /** Drops messages from the front while they have expired. */
  function Purged(messages: seq<Message>, now: int): seq<Message> {
    if messages != [] && messages[0].expiresAt <= now then Purged(messages[1..], now) else messages
  }

  lemma PurgedAt(messages: seq<Message>, n: nat, now: int)
    requires n <= |messages|
    ensures Purged(messages[n..], now) ==
            if n < |messages| && messages[n].expiresAt <= now then Purged(messages[n + 1..], now) else messages[n..]
  {
    if n < |messages| { assert messages[n..][1..] == messages[n + 1..]; }
  }

  function Digit(d: nat): (c: char)
    requires d < 10
    ensures '0' <= c <= '9' && c as int == '0' as int + d
  {
    ('0' as int + d) as char
  }

  function Digits(n: nat): string {
    if n < 10 then [Digit(n)] else Digits(n / 10) + [Digit(n % 10)]
  }

  /** `%d`. */
  function Decimal(n: int): string { if n < 0 then "-" + Digits(-n) else Digits(n) }

  function Unix(t: int): int { t / SECOND }

  const EXPIRES := "Expires-At-Unix: "
  const LENGTH := "Content-Length: "

  function Framed(m: Message): string {
    EXPIRES + Decimal(Unix(m.expiresAt)) + "\n" + LENGTH + Decimal(|m.body|) + "\n\n" + m.body + "\n\n"
  }

  /** The newest message first. */
  function Render(messages: seq<Message>): string {
    if messages == [] then "" else Framed(messages[|messages| - 1]) + Render(messages[..|messages| - 1])
  }

  function Scheduled(messages: seq<Message>, clock: int): Option<Timer> {
    if messages == [] then None else Some(Timer(Max(messages[0].expiresAt, clock), clock))
  }

  function DoPush(s: State, body: string, now: int, clock: int): State {
    var messages := Purged(s.messages, now) + [Message(body, now + TTL)];
    State(messages, Render(messages), if s.timer.None? then Scheduled(messages, clock) else s.timer)
  }

  function DoCleanup(s: State, now: int, clock: int): State {
    var messages := Purged(s.messages, now);
    State(messages, Render(messages), Scheduled(messages, clock))
  }

  /** A step reads the time once for the queue and once more when it arms the timer. */
  datatype Step = Push(body: string, now: int, clock: int) | Cleanup(now: int, clock: int)

  function Take(s: State, step: Step): State {
    match step
    case Push(body, now, clock) => DoPush(s, body, now, clock)
    case Cleanup(now, clock) => DoCleanup(s, now, clock)
  }

  function TakeAll(steps: seq<Step>): State {
    if steps == [] then EMPTY else Take(TakeAll(steps[..|steps| - 1]), steps[|steps| - 1])
  }

  // ---------- the board ----------

  class Board {
    var slots: array<Message>
    var count: nat
    var snapshot: string
    var timer: Option<Timer>

    ghost predicate Valid() reads this { count <= slots.Length }

    ghost function Messages(): seq<Message>
      requires Valid()
      reads this, slots
    {
      slots[..count]
    }

    ghost function Value(): State
      requires Valid()
      reads this, slots
    {
      State(Messages(), snapshot, timer)
    }

    constructor ()
      ensures Valid() && Value() == EMPTY && fresh(slots)
    {
      slots, count, snapshot, timer := new Message[0], 0, "", None;
    }

    method PurgeExpired(now: int)
      requires Valid()
      modifies this`count, slots
      ensures Valid() && Messages() == Purged(old(Messages()), now)
    {
      hide Purged;
      ghost var before := Messages();
      var n := 0;
      assert before[0..] == before;
      while n < count && slots[n].expiresAt <= now
        invariant count == old(count) && slots[..] == old(slots[..])
        invariant n <= count && Purged(before, now) == Purged(before[n..], now)
      {
        PurgedAt(before, n, now);
        n := n + 1;
      }
      PurgedAt(before, n, now);
      if n == 0 { return; }
      var newLen := count - n;
      for i := 0 to newLen
        invariant count == old(count)
        invariant forall k :: 0 <= k < i ==> slots[k] == before[n + k]
        invariant forall k :: i <= k < count ==> slots[k] == before[k]
      {
        slots[i] := slots[n + i];
      }
      for i := newLen to count
        invariant count == old(count)
        invariant forall k :: 0 <= k < newLen ==> slots[k] == before[n + k]
      {
        slots[i] := Message("", 0);
      }
      count := newLen;
      assert Messages() == before[n..];
    }

    method RebuildSnapshot()
      requires Valid()
      modifies `snapshot
      ensures snapshot == Render(Messages())
    {
      var buf, i := "", count;
      hide Framed;
      assert Messages()[..count] == Messages();
      while i > 0
        invariant 0 <= i <= count && Render(Messages()) == buf + Render(Messages()[..i])
      {
        i := i - 1;
        assert Messages()[..i + 1][..i] == Messages()[..i];
        buf := buf + Framed(slots[i]);
      }
      snapshot := buf;
    }

    method ScheduleNextCleanup(clock: int)
      requires Valid()
      modifies `timer
      ensures timer == Scheduled(Messages(), clock)
    {
      if count == 0 {
        timer := None;
        return;
      }
      var d := slots[0].expiresAt - clock;
      if d < 0 { d := 0; }
      timer := Some(Timer(clock + d, clock));
    }

    method CleanupCallback(now: int, clock: int)
      requires Valid()
      modifies this, slots
      ensures Valid() && slots == old(slots) && Value() == DoCleanup(old(Value()), now, clock)
    {
      timer := None;
      PurgeExpired(now);
      RebuildSnapshot();
      if count > 0 { ScheduleNextCleanup(clock); }
    }

    /** A slice grows into a larger array when it is full. */
    method Append(m: Message)
      requires Valid()
      modifies this`slots, this`count, slots
      ensures Valid() && (slots == old(slots) || fresh(slots)) && Messages() == old(Messages()) + [m]
    {
      if count == slots.Length {
        var larger := new Message[2 * count + 1](_ => Message("", 0));
        for i := 0 to count
          invariant count == old(count) && slots == old(slots) && slots[..] == old(slots[..])
          invariant larger[..i] == slots[..i]
        {
          larger[i] := slots[i];
        }
        slots := larger;
      }
      assert slots[..count] == old(Messages());
      slots[count] := m;
      count := count + 1;
      assert slots[..count] == old(Messages()) + [m];
    }

    method Push(body: string, now: int, clock: int) returns (expiresAt: int)
      requires Valid()
      modifies this, slots
      ensures Valid() && (slots == old(slots) || fresh(slots))
      ensures expiresAt == now + TTL && Value() == DoPush(old(Value()), body, now, clock)
    {
      hide Purged, Render;
      expiresAt := now + TTL;
      PurgeExpired(now);
      Append(Message(body, expiresAt));
      RebuildSnapshot();
      if timer.None? { ScheduleNextCleanup(clock); }
    }
  }

  // ---------- every run ----------

  predicate Ordered(messages: seq<Message>) {
    forall i, j :: 0 <= i < j < |messages| ==> messages[i].expiresAt <= messages[j].expiresAt
  }

  /** Ordered queue, cached rendering, and a timer that is armed iff needed and not too late. */
  predicate Inv(s: State) {
    && Ordered(s.messages) && s.snapshot == Render(s.messages)
    && (s.timer.Some? <==> s.messages != [])
    && (s.timer.Some? ==> s.timer.value.due <= Max(s.messages[0].expiresAt, s.timer.value.armedAt))
  }

  predicate InTimeOrder(steps: seq<Step>) { forall i, j :: 0 <= i < j < |steps| ==> steps[i].now <= steps[j].now }

  function Live(messages: seq<Message>, now: int): seq<Message> {
    if messages == [] then []
    else
      var n := |messages| - 1;
      Live(messages[..n], now) + if messages[n].expiresAt > now then [messages[n]] else []
  }

  /** Every message ever pushed, in order. */
  function AllPushed(steps: seq<Step>): seq<Message> {
    if steps == [] then []
    else
      var step := steps[|steps| - 1];
      AllPushed(steps[..|steps| - 1]) + if step.Push? then [Message(step.body, step.now + TTL)] else []
  }

  lemma {:induction false} LiveAll(messages: seq<Message>, now: int)
    requires forall i :: 0 <= i < |messages| ==> messages[i].expiresAt > now
    ensures Live(messages, now) == messages
  {
    if messages != [] {
      var init, last := messages[..|messages| - 1], messages[|messages| - 1];
      LiveAll(init, now);
      assert Live(messages, now) == Live(init, now) + [last];
      assert messages == init + [last];
    }
  }

  lemma {:induction false} LiveTail(messages: seq<Message>, now: int)
    requires messages != [] && messages[0].expiresAt <= now
    ensures Live(messages, now) == Live(messages[1..], now)
  {
    if |messages| > 1 {
      LiveTail(messages[..|messages| - 1], now);
      assert messages[..|messages| - 1][1..] == messages[1..][..|messages[1..]| - 1];
    }
  }

  /** In an ordered queue, purging the front removes exactly the expired messages. */
  lemma {:induction false} PurgedIsLive(messages: seq<Message>, now: int)
    requires Ordered(messages)
    ensures Purged(messages, now) == Live(messages, now)
    ensures exists n :: 0 <= n <= |messages| && Purged(messages, now) == messages[n..]
  {
    if messages != [] && messages[0].expiresAt <= now {
      LiveTail(messages, now);
      PurgedIsLive(messages[1..], now);
      var n :| 0 <= n <= |messages[1..]| && Purged(messages[1..], now) == messages[1..][n..];
      assert messages[1..][n..] == messages[n + 1..];
    } else {
      LiveAll(messages, now);
      assert messages[0..] == messages;
    }
  }

  lemma {:induction false} LiveLater(messages: seq<Message>, earlier: int, now: int)
    requires earlier <= now
    ensures Live(Live(messages, earlier), now) == Live(messages, now)
  {
    if messages != [] {
      var n := |messages| - 1;
      var before := Live(messages[..n], earlier);
      LiveLater(messages[..n], earlier, now);
      if messages[n].expiresAt > earlier {
        assert (before + [messages[n]])[..|before|] == before;
      } else {
        assert before + [] == before;
        assert Live(messages[..n], now) + [] == Live(messages[..n], now);
      }
    }
  }

  lemma LiveAppend(messages: seq<Message>, m: Message, now: int)
    requires m.expiresAt > now
    ensures Live(messages + [m], now) == Live(messages, now) + [m]
  {
    assert (messages + [m])[..|messages|] == messages;
  }

  predicate Young(messages: seq<Message>, now: int) {
    forall i :: 0 <= i < |messages| ==> messages[i].expiresAt <= now + TTL
  }

  /** One step at a time not before the last keeps the invariant. */
  lemma StepKeeps(s: State, earlier: int, step: Step)
    requires Inv(s) && Young(s.messages, earlier) && earlier <= step.now
    ensures Inv(Take(s, step)) && Young(Take(s, step).messages, step.now)
  {
    hide Render, Live, Purged;
    PurgedIsLive(s.messages, step.now);
  }

  lemma StepContent(s: State, pushed: seq<Message>, earlier: int, step: Step)
    requires Ordered(s.messages) && s.messages == Live(pushed, earlier) && earlier <= step.now
    ensures Take(s, step).messages
            == Live(pushed + if step.Push? then [Message(step.body, step.now + TTL)] else [], step.now)
  {
    hide Render, Live, Purged, Ordered;
    PurgedIsLive(s.messages, step.now);
    LiveLater(pushed, earlier, step.now);
    if step.Push? {
      LiveAppend(pushed, Message(step.body, step.now + TTL), step.now);
    } else {
      assert pushed + [] == pushed;
    }
  }

  /**
   In every run whose times do not decrease, the invariant holds, and the board holds exactly the
   messages pushed so far that had not expired at the last step.
   */
  lemma {:induction false} EveryRun(steps: seq<Step>)
    requires steps != [] && InTimeOrder(steps)
    ensures Inv(TakeAll(steps)) && Young(TakeAll(steps).messages, steps[|steps| - 1].now)
    ensures TakeAll(steps).messages == Live(AllPushed(steps), steps[|steps| - 1].now)
  {
    hide Inv, Young, Live, Take;
    var n := |steps| - 1;
    var before, step := steps[..n], steps[n];
    var s, earlier := TakeAll(before), if n == 0 then step.now else before[n - 1].now;
    if n == 0 {
      NothingYet(earlier);
      assert s == EMPTY && AllPushed(before) == [];
    } else {
      EveryRun(before);
    }
    InvOrdered(s);
    StepKeeps(s, earlier, step);
    StepContent(s, AllPushed(before), earlier, step);
  }

  lemma {:induction false} LiveIs(messages: seq<Message>, now: int, m: Message)
    ensures m in Live(messages, now) <==> m in messages && m.expiresAt > now
  {
    if messages != [] {
      var n := |messages| - 1;
      LiveIs(messages[..n], now, m);
      assert messages == messages[..n] + [messages[n]];
    }
  }

  /** A message and what it was pushed with: it expires 120 seconds later. */
  predicate PushedBy(m: Message, step: Step) {
    step.Push? && m.body == step.body && m.expiresAt == step.now + 120000000000
  }

  lemma {:induction false} PushedAre(steps: seq<Step>, m: Message)
    ensures m in AllPushed(steps) <==> exists k :: 0 <= k < |steps| && PushedBy(m, steps[k])
  {
    if steps != [] {
      var n := |steps| - 1;
      PushedAre(steps[..n], m);
      if k :| 0 <= k < n && PushedBy(m, steps[..n][k]) { assert PushedBy(m, steps[k]); }
      if k :| 0 <= k < |steps| && PushedBy(m, steps[k]) && k < n { assert PushedBy(m, steps[..n][k]); }
    }
  }

  /** In time order, a message is on the board exactly if it was pushed less than 120 seconds before the last step. */
  lemma HeldForTwoMinutes(steps: seq<Step>, m: Message)
    requires steps != [] && InTimeOrder(steps)
    ensures m in TakeAll(steps).messages <==>
            m.expiresAt > steps[|steps| - 1].now && exists k :: 0 <= k < |steps| && PushedBy(m, steps[k])
  {
    hide TakeAll, Live, AllPushed, Inv, PushedBy;
    EveryRun(steps);
    LiveIs(AllPushed(steps), steps[|steps| - 1].now, m);
    PushedAre(steps, m);
  }

  lemma NothingYet(now: int)
    ensures Inv(EMPTY) && Young([], now) && Live([], now) == []
  {}

  lemma InvOrdered(s: State)
    requires Inv(s)
    ensures Ordered(s.messages)
  {}

  /** Whenever some message has expired, the timer is already due. */
  lemma ExpiredMeansDue(s: State, t: int, i: nat)
    requires Inv(s) && i < |s.messages| && s.messages[i].expiresAt <= t
    ensures s.timer.Some? && (s.timer.value.armedAt <= t ==> s.timer.value.due <= t)
  {
    hide Render;
  }

  // ---------- times out of order ----------

  lemma {:induction false} LiveIsLive(messages: seq<Message>, now: int)
    ensures forall i :: 0 <= i < |Live(messages, now)| ==> Live(messages, now)[i].expiresAt > now
  {
    if messages != [] { LiveIsLive(messages[..|messages| - 1], now); }
  }

  /** Purging stops at the first message that has not expired. */
  lemma {:induction false} PurgedStops(messages: seq<Message>, now: int, i: nat, j: nat)
    requires i < j < |messages| && messages[i].expiresAt > now
    ensures messages[j] in Purged(messages, now)
  {
    if messages[0].expiresAt <= now {
      PurgedStops(messages[1..], now, i - 1, j - 1);
    }
  }

  /** Purging the front removes exactly the expired messages, at all times, iff the queue is ordered. */
  lemma PurgeIsExactIffOrdered(messages: seq<Message>)
    ensures (forall now :: Purged(messages, now) == Live(messages, now)) <==> Ordered(messages)
  {
    hide Purged, Live;
    if Ordered(messages) {
      forall now ensures Purged(messages, now) == Live(messages, now) { PurgedIsLive(messages, now); }
    } else {
      var i, j :| 0 <= i < j < |messages| && messages[i].expiresAt > messages[j].expiresAt;
      PurgedStops(messages, messages[j].expiresAt, i, j);
      LiveIsLive(messages, messages[j].expiresAt);
      assert Purged(messages, messages[j].expiresAt) != Live(messages, messages[j].expiresAt);
    }
  }

  /**
   When the newest message that is still on the board was pushed, told from the times of the steps
   alone: a cleanup that comes after it has expired leaves none.
   */
  function Newest(steps: seq<Step>): Option<int> {
    if steps == [] then None
    else
      var before, step := Newest(steps[..|steps| - 1]), steps[|steps| - 1];
      if step.Push? then Some(step.now)
      else if before.Some? && before.value + TTL <= step.now then None
      else before
  }

  /** No push comes with an earlier time than the newest message that is still on the board. */
  predicate Orderly(steps: seq<Step>) {
    steps == [] ||
    (var before, step := steps[..|steps| - 1], steps[|steps| - 1];
     Orderly(before) && (step.Push? && Newest(before).Some? ==> Newest(before).value <= step.now))
  }

  ghost predicate NewestIs(messages: seq<Message>, newest: Option<int>) {
    && (messages == [] <==> newest.None?)
    && (newest.Some? && messages != [] ==> messages[|messages| - 1].expiresAt == newest.value + TTL)
  }

  /** In an ordered queue the purge takes everything exactly when it takes the newest message. */
  lemma PurgedEnd(messages: seq<Message>, now: int)
    requires Ordered(messages) && messages != []
    ensures var left, last := Purged(messages, now), messages[|messages| - 1];
            if last.expiresAt <= now then left == [] else left != [] && left[|left| - 1] == last
  {
    hide Purged, Live;
    PurgedIsLive(messages, now);
    LiveIsLive(messages, now);
    var n :| 0 <= n <= |messages| && Purged(messages, now) == messages[n..];
    if messages[|messages| - 1].expiresAt > now { assert Live(messages, now) != [] by { LiveLast(messages, now); } }
  }

  lemma LiveLast(messages: seq<Message>, now: int)
    requires messages != [] && messages[|messages| - 1].expiresAt > now
    ensures Live(messages, now) != []
  {}

  lemma OrderlyStep(s: State, newest: Option<int>, step: Step)
    requires Ordered(s.messages) && NewestIs(s.messages, newest)
    ensures step.Cleanup? ==>
              && Ordered(Take(s, step).messages)
              && NewestIs(Take(s, step).messages,
                          if newest.Some? && newest.value + TTL <= step.now then None else newest)
    ensures step.Push? ==>
              && (Ordered(Take(s, step).messages) <==> !(newest.Some? && newest.value > step.now))
              && NewestIs(Take(s, step).messages, Some(step.now))
  {
    hide Purged, Live, Render;
    PurgedIsLive(s.messages, step.now);
    if s.messages != [] { PurgedEnd(s.messages, step.now); }
    if s.messages == [] { assert Purged([], step.now) == [] by { NothingToPurge(step.now); } }
    var left := Purged(s.messages, step.now);
    if step.Push? && newest.Some? && newest.value > step.now {
      assert Take(s, step).messages[|left| - 1].expiresAt > Take(s, step).messages[|left|].expiresAt;
    }
  }

  lemma NothingToPurge(now: int)
    ensures Purged([], now) == []
  {}

  lemma {:induction false} OrderlyIsOrdered(steps: seq<Step>)
    requires Orderly(steps)
    ensures Ordered(TakeAll(steps).messages) && NewestIs(TakeAll(steps).messages, Newest(steps))
  {
    hide Take, Ordered, NewestIs;
    if steps == [] {
      assert Ordered([]) && NewestIs([], None) by { NothingIsOrdered(); }
    } else {
      var n := |steps| - 1;
      OrderlyIsOrdered(steps[..n]);
      OrderlyStep(TakeAll(steps[..n]), Newest(steps[..n]), steps[n]);
    }
  }

  lemma NothingIsOrdered()
    ensures Ordered([]) && NewestIs([], None)
  {}

  lemma {:induction false} OrderlyPrefix(steps: seq<Step>, n: nat)
    requires Orderly(steps) && n <= |steps|
    ensures Orderly(steps[..n])
  {
    if n < |steps| {
      OrderlyPrefix(steps[..|steps| - 1], n);
      assert steps[..|steps| - 1][..n] == steps[..n];
    } else {
      assert steps[..n] == steps;
    }
  }

  /** Where the order breaks: the first push that is earlier than the newest message on the board. */
  lemma {:induction false} Disorder(steps: seq<Step>) returns (n: nat)
    requires !Orderly(steps)
    ensures 1 <= n <= |steps| && !Ordered(TakeAll(steps[..n]).messages)
  {
    hide Take, Ordered, NewestIs;
    var last := |steps| - 1;
    if !Orderly(steps[..last]) {
      n := Disorder(steps[..last]);
      assert steps[..last][..n] == steps[..n];
    } else {
      n := |steps|;
      assert steps[..n] == steps;
      OrderlyIsOrdered(steps[..last]);
      OrderlyStep(TakeAll(steps[..last]), Newest(steps[..last]), steps[last]);
    }
  }

  /** At every point of a run, a purge at any time would remove exactly what has expired. */
  ghost predicate AlwaysExact(steps: seq<Step>) {
    forall n, now :: 0 <= n <= |steps| ==> ExactAt(TakeAll(steps[..n]).messages, now)
  }

  predicate ExactAt(messages: seq<Message>, now: int) { Purged(messages, now) == Live(messages, now) }

  /** A run never leaves a message past its expiry exactly when its pushes come in order. */
  lemma RunIsExactIffOrderly(steps: seq<Step>)
    ensures AlwaysExact(steps) <==> Orderly(steps)
  {
    hide Orderly, Ordered, TakeAll, Purged, Live;
    if Orderly(steps) {
      forall n, now | 0 <= n <= |steps| ensures ExactAt(TakeAll(steps[..n]).messages, now) {
        OrderlyPrefix(steps, n);
        OrderlyIsOrdered(steps[..n]);
        PurgedIsLive(TakeAll(steps[..n]).messages, now);
      }
    } else {
      var n := Disorder(steps);
      PurgeIsExactIffOrdered(TakeAll(steps[..n]).messages);
      var now :| Purged(TakeAll(steps[..n]).messages, now) != Live(TakeAll(steps[..n]).messages, now);
      assert !ExactAt(TakeAll(steps[..n]).messages, now);
    }
  }

  /** Times that never decrease are in order. */
  lemma {:induction false} TimeOrderIsOrderly(steps: seq<Step>)
    requires InTimeOrder(steps)
    ensures Orderly(steps)
    ensures Newest(steps).Some? ==> exists i :: 0 <= i < |steps| && steps[i].now == Newest(steps).value
  {
    if steps != [] {
      var before := steps[..|steps| - 1];
      TimeOrderIsOrderly(before);
      if Newest(before).Some? {
        var i :| 0 <= i < |before| && before[i].now == Newest(before).value;
        assert steps[i] == before[i];
      }
      assert steps[|steps| - 1].Push? ==> Newest(steps) == Some(steps[|steps| - 1].now);
    }
  }

  /**
   A push whose time was read before another, but which comes after it, stays on the board past its
   expiry: the next purge, by a third push, stops in front of it, and the timer is not due yet.
   */
  lemma LatePushOutlives()
    ensures var late := [Push("a", SECOND, SECOND), Push("b", 0, SECOND)];
            var s := TakeAll(late + [Push("c", TTL, TTL)]);
            && s.messages == [Message("a", SECOND + TTL), Message("b", TTL), Message("c", TTL + TTL)]
            && TakeAll(late).timer == s.timer == Some(Timer(SECOND + TTL, SECOND)) && !Orderly(late)
  {
    hide Render;
    var first, second, third := Push("a", SECOND, SECOND), Push("b", 0, SECOND), Push("c", TTL, TTL);
    var late := [first, second];
    var steps := late + [third];
    assert late[..1] == [first] && late[..1][..0] == [] && steps[..2] == late;
    assert TakeAll([first]) == DoPush(EMPTY, "a", SECOND, SECOND);
    assert TakeAll(late).messages == [Message("a", SECOND + TTL), Message("b", TTL)];
    assert Newest([first]) == Some(SECOND);
  }
}
