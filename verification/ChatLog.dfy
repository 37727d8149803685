/** The room chat as one client keeps it: events arrive live and from history replies, in any
    order and more than once, and the newest hundred are shown in order. */
module ChatLog {

  const RETAINED_MESSAGES := 100
  const UINT64 := 0x1_0000_0000_0000_0000

  type Number = n: nat | n < UINT64
  type Nonce = string

  datatype Message = Message(number: Number, sender: nat, epoch: nat, text: string)

  datatype Chat = Chat(
    messages: seq<Message>, lastSeen: Number, pending: set<Nonce>, unread: nat, dialogOpen: bool, epoch: nat)

  /** One event of a client's chat. An arriving message is `readable` when it names this room, the
      key is present and it decrypts. */
  datatype Action =
    | Arrive(message: Message, nonce: Nonce, readable: bool, mine: bool)
    | Clear(epoch: nat)            // the room was joined, or a new media key was installed
    | Send(nonce: Nonce)
    | Settle(nonce: Nonce)         // rejected by the server, or given up after a history reply
    | SetOpen(open: bool)

  // ----- the list ----------------------------------------------------------------------------------

  predicate Has(ms: seq<Message>, n: Number) { exists i :: 0 <= i < |ms| && ms[i].number == n }

  predicate Ascending(ms: seq<Message>) { forall i, j :: 0 <= i < j < |ms| ==> ms[i].number < ms[j].number }

  function Placed(ms: seq<Message>, m: Message): seq<Message> {
    if ms == [] || ms[|ms| - 1].number < m.number then ms + [m]
    else Placed(ms[..|ms| - 1], m) + [ms[|ms| - 1]]
  }

  function Newest(ms: seq<Message>): seq<Message> {
    if |ms| > RETAINED_MESSAGES then ms[|ms| - RETAINED_MESSAGES..] else ms
  }

  function Added(ms: seq<Message>, m: Message): seq<Message> {
    if Has(ms, m.number) then ms else Newest(Placed(ms, m))
  }

  /** A hole between what was seen and what arrives asks the server for history. */
  predicate NeedsHistory(lastSeen: Number, n: Number) {
    n > (lastSeen + 1) % UINT64 && lastSeen != 0
  }

  function Accepted(c: Chat, m: Message, nonce: Nonce, mine: bool): Chat {
    var settled := c.(pending := c.pending - {nonce});
    if Has(c.messages, m.number) then settled
    else settled.(
      messages := Added(c.messages, m),
      lastSeen := if m.number > c.lastSeen then m.number else c.lastSeen,
      unread := c.unread + if !c.dialogOpen && !mine then 1 else 0)
  }

  predicate Takes(c: Chat, a: Action) { a.Arrive? && a.readable && a.message.epoch == c.epoch }

  function Next(c: Chat, a: Action): Chat {
    match a
    case Arrive(m, nonce, _, mine) => if Takes(c, a) then Accepted(c, m, nonce, mine) else c
    case Clear(e) => Chat([], 0, {}, 0, c.dialogOpen, e)
    case Send(nonce) => c.(pending := c.pending + {nonce})
    case Settle(nonce) => c.(pending := c.pending - {nonce})
    case SetOpen(open) => c.(dialogOpen := open, unread := if open then 0 else c.unread)
  }

  function After(acts: seq<Action>): Chat {
    if acts == [] then Chat([], 0, {}, 0, false, 0) else Next(After(acts[..|acts| - 1]), acts[|acts| - 1])
  }

  /** The numbers taken since the last clear. */
  function Taken(acts: seq<Action>): set<Number> {
    if acts == [] then {}
    else
      var n := |acts| - 1;
      if acts[n].Clear? then {}
      else if Takes(After(acts[..n]), acts[n]) then Taken(acts[..n]) + {acts[n].message.number}
      else Taken(acts[..n])
  }

  // ----- the newest hundred ------------------------------------------------------------------------

  /** ms shows the newest of the numbers taken: ascending, taken from there, at most a hundred, and
      a number is missing only from a full list whose every entry is newer. */
  ghost predicate ShowsNewest(ms: seq<Message>, taken: set<Number>) {
    && Ascending(ms) && |ms| <= RETAINED_MESSAGES
    && (forall i :: 0 <= i < |ms| ==> ms[i].number in taken)
    && forall n :: n in taken && !Has(ms, n) ==> |ms| == RETAINED_MESSAGES && n < ms[0].number
  }

  lemma {:induction false} PlacedBetween(a: seq<Message>, m: Message, b: seq<Message>)
    requires a != [] ==> a[|a| - 1].number < m.number
    requires forall i :: 0 <= i < |b| ==> b[i].number >= m.number
    ensures Placed(a + b, m) == a + [m] + b
    decreases |b|
  {
    if b == [] {
      assert a + b == a && a + [m] + b == a + [m];
    } else {
      var rest, z := b[..|b| - 1], b[|b| - 1];
      PlacedBetween(a, m, rest);
      PlacedBefore(a + rest, m, z);
      assert b == rest + [z];
      Regroup(a, rest, z);
      Regroup(a + [m], rest, z);
    }
  }

  lemma Regroup(a: seq<Message>, b: seq<Message>, z: Message)
    ensures a + (b + [z]) == a + b + [z]
  {
  }

  lemma PlacedBefore(ms: seq<Message>, m: Message, z: Message)
    requires z.number >= m.number
    ensures Placed(ms + [z], m) == Placed(ms, m) + [z]
  {
    assert (ms + [z])[..|ms|] == ms;
  }

  lemma PlacedAt(ms: seq<Message>, m: Message, k: nat)
    requires k <= |ms| && (k > 0 ==> ms[k - 1].number < m.number)
    requires forall i :: k <= i < |ms| ==> ms[i].number >= m.number
    ensures Placed(ms, m) == ms[..k] + [m] + ms[k..]
  {
    assert ms == ms[..k] + ms[k..];
    PlacedBetween(ms[..k], m, ms[k..]);
  }

  lemma Slot(ms: seq<Message>, m: Message) returns (k: nat)
    requires Ascending(ms) && !Has(ms, m.number)
    ensures k <= |ms| && Placed(ms, m) == ms[..k] + [m] + ms[k..]
    ensures forall i :: 0 <= i < k ==> ms[i].number < m.number
    ensures forall i :: k <= i < |ms| ==> ms[i].number > m.number
  {
    k := |ms|;
    while k > 0 && ms[k - 1].number >= m.number
      invariant 0 <= k <= |ms|
      invariant forall i :: k <= i < |ms| ==> ms[i].number > m.number
    {
      k := k - 1;
    }
    PlacedAt(ms, m, k);
  }

  lemma PlacedInOrder(ms: seq<Message>, m: Message)
    requires Ascending(ms) && !Has(ms, m.number)
    ensures |Placed(ms, m)| == |ms| + 1 && Ascending(Placed(ms, m))
    ensures forall x :: x in Placed(ms, m) <==> x in ms || x == m
  {
    var k := Slot(ms, m);
    BetweenInOrder(ms, m, k);
    BetweenMembers(ms[..k], m, ms[k..]);
    assert ms == ms[..k] + ms[k..];
  }

  lemma SecondPlaced(ms: seq<Message>, m: Message)
    requires Ascending(ms) && !Has(ms, m.number) && ms != []
    ensures |Placed(ms, m)| > 1 && Placed(ms, m)[1].number >= ms[0].number
  {
    var k := Slot(ms, m);
    assert Placed(ms, m)[1] == if k > 1 then ms[1] else if k == 1 then m else ms[0];
  }

  lemma BetweenInOrder(ms: seq<Message>, m: Message, k: nat)
    requires Ascending(ms) && k <= |ms|
    requires forall i :: 0 <= i < k ==> ms[i].number < m.number
    requires forall i :: k <= i < |ms| ==> ms[i].number > m.number
    ensures Ascending(ms[..k] + [m] + ms[k..])
  {
    var p := ms[..k] + [m] + ms[k..];
    forall i, j | 0 <= i < j < |p| ensures p[i].number < p[j].number {
      assert p[i] == if i < k then ms[i] else if i == k then m else ms[i - 1];
      assert p[j] == if j < k then ms[j] else if j == k then m else ms[j - 1];
    }
  }

  lemma BetweenMembers(a: seq<Message>, m: Message, b: seq<Message>)
    ensures forall x :: x in a + [m] + b <==> x in a + b || x == m
  {
    assert (a + [m] + b)[|a|] == m;
  }

  lemma HasIn(ms: seq<Message>, m: Message)
    requires m in ms
    ensures Has(ms, m.number)
  {
    var i :| 0 <= i < |ms| && ms[i] == m;
  }

  lemma KeptUnlessPushedOut(p: seq<Message>, i: nat)
    requires i < |p| <= RETAINED_MESSAGES + 1
    ensures p[i] in Newest(p) || (i == 0 && |p| == RETAINED_MESSAGES + 1)
  {
    if |p| > RETAINED_MESSAGES && i > 0 {
      assert Newest(p)[i - 1] == p[i];
    }
  }

  lemma AddedIsFrom(ms: seq<Message>, m: Message, i: nat)
    requires Ascending(ms) && !Has(ms, m.number) && i < |Added(ms, m)|
    ensures Added(ms, m)[i] in ms || Added(ms, m)[i] == m
  {
    PlacedInOrder(ms, m);
    assert Added(ms, m)[i] in Placed(ms, m);
  }

  lemma AddedShowsNewest(ms: seq<Message>, taken: set<Number>, m: Message)
    requires ShowsNewest(ms, taken)
    ensures ShowsNewest(Added(ms, m), taken + {m.number})
  {
    if Has(ms, m.number) {
      assert taken + {m.number} == taken;
    } else {
      PlacedInOrder(ms, m);
      var out := Added(ms, m);
      forall i | 0 <= i < |out| ensures out[i].number in taken + {m.number} {
        AddedIsFrom(ms, m, i);
      }
      forall n | n in taken + {m.number} && !Has(out, n)
        ensures |out| == RETAINED_MESSAGES && n < out[0].number
      {
        MissingIsOlder(ms, taken, m, n);
      }
    }
  }

  /** Whatever does not make it into the new list was already missing, or is the entry pushed out. */
  lemma MissingIsOlder(ms: seq<Message>, taken: set<Number>, m: Message, n: Number)
    requires ShowsNewest(ms, taken) && !Has(ms, m.number)
    requires n in taken + {m.number} && !Has(Added(ms, m), n)
    ensures |Added(ms, m)| == RETAINED_MESSAGES && n < Added(ms, m)[0].number
  {
    PlacedInOrder(ms, m);
    var p, out := Placed(ms, m), Added(ms, m);
    if Has(p, n) {
      var i :| 0 <= i < |p| && p[i].number == n;
      KeptUnlessPushedOut(p, i);
      if p[i] in out {
        HasIn(out, p[i]);
      }
      assert out[0] == p[1];
    } else {
      NotPlaced(ms, m, n);
      SecondPlaced(ms, m);
      assert out[0] == p[1];
    }
  }

  lemma NotPlaced(ms: seq<Message>, m: Message, n: Number)
    requires Ascending(ms) && !Has(ms, m.number) && !Has(Placed(ms, m), n)
    ensures n != m.number && !Has(ms, n)
  {
    PlacedInOrder(ms, m);
    if n == m.number {
      HasIn(Placed(ms, m), m);
    } else if i :| 0 <= i < |ms| && ms[i].number == n {
      HasIn(Placed(ms, m), ms[i]);
    }
  }

  // ----- uniqueness ----------------------------------------------------------------------------------

  /** The i-th newest number shown. */
  function FromNewest(ms: seq<Message>, i: nat): Number
    requires i < |ms|
  {
    ms[|ms| - 1 - i].number
  }

  ghost predicate AgreeOn(a: seq<Message>, b: seq<Message>, k: nat) {
    k <= |a| && k <= |b| && forall i :: 0 <= i < k ==> FromNewest(a, i) == FromNewest(b, i)
  }

  lemma {:induction false} ListsAgree(a: seq<Message>, b: seq<Message>, taken: set<Number>, k: nat)
    requires ShowsNewest(a, taken) && ShowsNewest(b, taken) && k <= |a| && k <= |b|
    ensures AgreeOn(a, b, k)
  {
    if k == 0 {
    } else {
      ListsAgree(a, b, taken, k - 1);
      NextIsNotOlder(a, b, taken, k - 1);
      NextIsNotOlder(b, a, taken, k - 1);
    }
  }

  /** If the k newest agree and b has more, so has a, and its next one is no older. */
  lemma NextIsNotOlder(a: seq<Message>, b: seq<Message>, taken: set<Number>, k: nat)
    requires ShowsNewest(a, taken) && ShowsNewest(b, taken) && AgreeOn(a, b, k) && k < |b|
    ensures k < |a| && FromNewest(a, k) >= FromNewest(b, k)
  {
    var y := FromNewest(b, k);
    if Has(a, y) {
      var i :| 0 <= i < |a| && a[i].number == y;
      if i >= |a| - k {
        NewerThanNext(a, b, k, i);
      }
    }
  }

  lemma NewerThanNext(a: seq<Message>, b: seq<Message>, k: nat, i: nat)
    requires Ascending(b) && AgreeOn(a, b, k) && k < |b| && |a| - k <= i < |a|
    ensures a[i].number > FromNewest(b, k)
  {
    assert FromNewest(a, |a| - 1 - i) == FromNewest(b, |a| - 1 - i);
  }

  /** The list does not depend on the order of arrival, nor on repeats. */
  lemma ListDetermined(a: seq<Message>, b: seq<Message>, taken: set<Number>)
    requires ShowsNewest(a, taken) && ShowsNewest(b, taken)
    ensures |a| == |b| && forall i :: 0 <= i < |a| ==> a[i].number == b[i].number
  {
    var k := if |a| < |b| then |a| else |b|;
    ListsAgree(a, b, taken, k);
    if |a| < |b| {
      NextIsNotOlder(a, b, taken, k);
    } else if |b| < |a| {
      NextIsNotOlder(b, a, taken, k);
    } else {
      forall i | 0 <= i < |a| ensures a[i].number == b[i].number {
        assert FromNewest(a, |a| - 1 - i) == FromNewest(b, |a| - 1 - i);
      }
    }
  }

  // ----- over whole runs -----------------------------------------------------------------------------

  /** The highest number taken, or 0. */
  ghost predicate IsHighest(n: Number, taken: set<Number>) {
    (if taken == {} then n == 0 else n in taken) && forall x :: x in taken ==> x <= n
  }

  lemma {:induction false} ShowsNewestAlways(acts: seq<Action>)
    ensures ShowsNewest(After(acts).messages, Taken(acts))
  {
    if acts == [] {
    } else {
      var n := |acts| - 1;
      ShowsNewestAlways(acts[..n]);
      if Takes(After(acts[..n]), acts[n]) {
        AddedShowsNewest(After(acts[..n]).messages, Taken(acts[..n]), acts[n].message);
      }
    }
  }

  lemma {:induction false} LastSeenIsHighest(acts: seq<Action>)
    ensures IsHighest(After(acts).lastSeen, Taken(acts))
  {
    if acts == [] {
    } else {
      var n := |acts| - 1;
      LastSeenIsHighest(acts[..n]);
      ShowsNewestAlways(acts[..n]);
    }
  }

  /** A new key leaves nothing of the old one on show. */
  lemma {:induction false} OnlyCurrentEpoch(acts: seq<Action>)
    ensures forall i :: 0 <= i < |After(acts).messages| ==> After(acts).messages[i].epoch == After(acts).epoch
  {
    if acts == [] {
    } else {
      var n := |acts| - 1;
      var c, a := After(acts[..n]), acts[n];
      OnlyCurrentEpoch(acts[..n]);
      if Takes(c, a) && !Has(c.messages, a.message.number) {
        ShowsNewestAlways(acts[..n]);
        forall i | 0 <= i < |After(acts).messages| ensures After(acts).messages[i].epoch == c.epoch {
          AddedIsFrom(c.messages, a.message, i);
        }
      }
    }
  }

  /** Every message taken is the one the server numbered. */
  ghost predicate FromServer(acts: seq<Action>, server: Number -> Message) {
    forall i :: 0 <= i < |acts| && acts[i].Arrive? ==> acts[i].message == server(acts[i].message.number)
  }

  lemma {:induction false} ShownFromServer(acts: seq<Action>, server: Number -> Message)
    requires FromServer(acts, server)
    ensures forall i :: 0 <= i < |After(acts).messages| ==>
              After(acts).messages[i] == server(After(acts).messages[i].number)
  {
    if acts == [] {
    } else {
      var n := |acts| - 1;
      var c, a := After(acts[..n]), acts[n];
      ShownFromServer(acts[..n], server);
      if Takes(c, a) && !Has(c.messages, a.message.number) {
        ShowsNewestAlways(acts[..n]);
        var out := After(acts).messages;
        forall i | 0 <= i < |out| ensures out[i] == server(out[i].number) {
          AddedIsFrom(c.messages, a.message, i);
        }
      }
    }
  }

  /** Two clients that took the same numbers, in whatever order and however often, show the same
      chat. */
  lemma SameChatShown(p: seq<Action>, q: seq<Action>, server: Number -> Message)
    requires Taken(p) == Taken(q) && FromServer(p, server) && FromServer(q, server)
    ensures After(p).messages == After(q).messages && After(p).lastSeen == After(q).lastSeen
  {
    ShowsNewestAlways(p);
    ShowsNewestAlways(q);
    ListDetermined(After(p).messages, After(q).messages, Taken(p));
    ShownFromServer(p, server);
    ShownFromServer(q, server);
    LastSeenIsHighest(p);
    LastSeenIsHighest(q);
  }

  // ----- the unread count -------------------------------------------------------------------------------

  /** The step raises the unread count. */
  predicate Counts(c: Chat, a: Action) {
    Takes(c, a) && !Has(c.messages, a.message.number) && !c.dialogOpen && !a.mine
  }

  predicate Resets(a: Action) { a.Clear? || (a.SetOpen? && a.open) }

  /** The others' messages that came in for the first time since the dialog was last opened, or the chat
      cleared, while it was closed. */
  function Unseen(acts: seq<Action>): set<Number> {
    if acts == [] then {}
    else
      var n := |acts| - 1;
      if Resets(acts[n]) then {}
      else if Counts(After(acts[..n]), acts[n]) && acts[n].message.number !in Taken(acts[..n])
      then Unseen(acts[..n]) + {acts[n].message.number}
      else Unseen(acts[..n])
  }

  /** How often since then a message counted that had been taken before. */
  function Recounted(acts: seq<Action>): nat {
    if acts == [] then 0
    else
      var n := |acts| - 1;
      if Resets(acts[n]) then 0
      else if Counts(After(acts[..n]), acts[n]) && acts[n].message.number in Taken(acts[..n])
      then Recounted(acts[..n]) + 1
      else Recounted(acts[..n])
  }

  lemma {:induction false} UnseenWereTaken(acts: seq<Action>)
    ensures Unseen(acts) <= Taken(acts)
  {
    if acts == [] {
    } else {
      UnseenWereTaken(acts[..|acts| - 1]);
    }
  }

  /** The dialog is as it was last set. */
  lemma {:induction false} DialogAsSet(acts: seq<Action>)
    ensures acts != [] && acts[|acts| - 1].SetOpen? ==> After(acts).dialogOpen == acts[|acts| - 1].open
    ensures acts != [] && !acts[|acts| - 1].SetOpen? ==> After(acts).dialogOpen == After(acts[..|acts| - 1]).dialogOpen
    ensures After([]).dialogOpen == false
  {
  }

  /** Each of the others' new messages counts once, and a repeat counts again each time it is one that had
      been pushed out of the hundred. */
  lemma {:induction false} UnreadIs(acts: seq<Action>)
    ensures After(acts).unread == |Unseen(acts)| + Recounted(acts)
    ensures After(acts).unread == |Unseen(acts)| <==> Recounted(acts) == 0
  {
    if acts == [] {
    } else {
      var n := |acts| - 1;
      UnreadIs(acts[..n]);
      UnseenWereTaken(acts[..n]);
      UnreadStep(After(acts[..n]), acts[n]);
      if Counts(After(acts[..n]), acts[n]) && acts[n].message.number !in Taken(acts[..n]) {
        OneMore(Unseen(acts[..n]), acts[n].message.number);
      }
    }
  }

  lemma UnreadStep(c: Chat, a: Action)
    ensures Next(c, a).unread == if Resets(a) then 0 else c.unread + if Counts(c, a) then 1 else 0
  {
  }

  lemma OneMore(seen: set<Number>, n: Number)
    requires n !in seen
    ensures |seen + {n}| == |seen| + 1
  {
  }

  /** Which repeats those are: those older than everything shown. */
  lemma RecountIff(acts: seq<Action>, a: Action)
    requires Takes(After(acts), a) && !After(acts).dialogOpen && !a.mine && a.message.number in Taken(acts)
    ensures Counts(After(acts), a) <==> After(acts).messages != [] && a.message.number < After(acts).messages[0].number
  {
    ShowsNewestAlways(acts);
  }

  /** k messages of others arrive in order while the dialog is closed. */
  function Burst(k: nat): (acts: seq<Action>)
    requires k < UINT64
    ensures |acts| == k && forall i :: 0 <= i < k ==> acts[i] == OfOthers(i + 1)
  {
    seq(k, i requires 0 <= i < k => OfOthers(i + 1))
  }

  function OfOthers(n: Number): Action { Arrive(Message(n, 1, 0, ""), "", true, false) }

  /** A closed chat of epoch 0 that shows the newest of the numbers 1 to k. */
  ghost predicate ShowsUpTo(c: Chat, k: nat) {
    && c.epoch == 0 && !c.dialogOpen && |c.messages| == (if k < RETAINED_MESSAGES then k else RETAINED_MESSAGES)
    && forall i :: 0 <= i < |c.messages| ==> c.messages[i].number == k - |c.messages| + i + 1
  }

  lemma NextOfBurst(c: Chat, k: nat)
    requires ShowsUpTo(c, k) && k + 1 < UINT64
    ensures Takes(c, OfOthers(k + 1)) && ShowsUpTo(Next(c, OfOthers(k + 1)), k + 1)
  {
    var m := OfOthers(k + 1).message;
    assert !Has(c.messages, k + 1);
    assert Placed(c.messages, m) == c.messages + [m];
  }

  lemma {:induction false} BurstShows(k: nat)
    requires k < UINT64
    ensures ShowsUpTo(After(Burst(k)), k)
    ensures k > 0 ==> 1 in Taken(Burst(k))
  {
    if k == 0 {
    } else {
      assert Burst(k)[..k - 1] == Burst(k - 1);
      BurstShows(k - 1);
      NextOfBurst(After(Burst(k - 1)), k - 1);
    }
  }

  /** More than a hundred messages, and the first of them once more. */
  lemma RepeatRaisesUnread(k: nat)
    requires RETAINED_MESSAGES < k < UINT64
    ensures var run := Burst(k) + [OfOthers(1)]; Recounted(run) > 0 && After(run).unread > |Unseen(run)|
  {
    var run := Burst(k) + [OfOthers(1)];
    assert run[..k] == Burst(k);
    BurstShows(k);
    RecountIff(Burst(k), OfOthers(1));
    UnreadIs(run);
  }

  // ----- messages on their way --------------------------------------------------------------------------

  /** Step j settles the nonce: the message came back, the server refused it, or the chat was cleared. */
  predicate SettledAt(acts: seq<Action>, j: nat, nonce: Nonce)
    requires j < |acts|
  {
    || acts[j].Clear? || acts[j] == Settle(nonce)
    || (Takes(After(acts[..j]), acts[j]) && acts[j].nonce == nonce)
  }

  /** The message was sent at step i and not settled since. */
  ghost predicate OnItsWay(acts: seq<Action>, i: int, nonce: Nonce) {
    0 <= i < |acts| && acts[i] == Send(nonce) && forall j :: i < j < |acts| ==> !SettledAt(acts, j, nonce)
  }

  lemma SettledEarlier(acts: seq<Action>, n: nat, j: nat, nonce: Nonce)
    requires j < n <= |acts|
    ensures SettledAt(acts[..n], j, nonce) <==> SettledAt(acts, j, nonce)
  {
    assert acts[..n][..j] == acts[..j];
  }

  /** A nonce is pending exactly if its message was sent and has not been settled since. */
  lemma {:induction false} PendingIs(acts: seq<Action>, nonce: Nonce)
    ensures nonce in After(acts).pending <==> exists i :: OnItsWay(acts, i, nonce)
  {
    if acts == [] {
    } else {
      var n := |acts| - 1;
      var before := acts[..n];
      PendingIs(before, nonce);
      forall i | 0 <= i < n
        ensures OnItsWay(acts, i, nonce) <==> OnItsWay(before, i, nonce) && !SettledAt(acts, n, nonce)
      {
        forall j | i < j < n ensures SettledAt(before, j, nonce) <==> SettledAt(acts, j, nonce) {
          SettledEarlier(acts, n, j, nonce);
        }
      }
      assert OnItsWay(acts, n, nonce) <==> acts[n] == Send(nonce);
    }
  }

  // ----- holes and history requests ------------------------------------------------------------------

  /** Step i asked for history. */
  predicate Asked(acts: seq<Action>, i: nat)
    requires i < |acts|
  {
    var c := After(acts[..i]);
    Takes(c, acts[i]) && !Has(c.messages, acts[i].message.number) && NeedsHistory(c.lastSeen, acts[i].message.number)
  }

  /** History is asked for exactly when a message is taken for the first time, or again after it was pushed out,
      and numbers are missing between the highest taken before and it; or, once that highest number is the last
      there is, at any number but 0. */
  lemma AskedIff(acts: seq<Action>, i: nat)
    requires i < |acts|
    ensures
      var c := After(acts[..i]);
      Asked(acts, i) <==>
        && Takes(c, acts[i]) && !Has(c.messages, acts[i].message.number) && c.lastSeen != 0
        && if c.lastSeen == UINT64 - 1 then acts[i].message.number > 0 else acts[i].message.number - c.lastSeen >= 2
    ensures
      var c := After(acts[..i]);
      Asked(acts, i) && c.lastSeen < UINT64 - 1 ==>
        forall k: Number :: c.lastSeen < k < acts[i].message.number ==> k !in Taken(acts[..i])
  {
    var c := After(acts[..i]);
    LastSeenIsHighest(acts[..i]);
    if c.lastSeen < UINT64 - 1 {
      NoWrap(c.lastSeen + 1);
    }
  }

  /** The first number taken since the last clear, or 0. */
  function First(acts: seq<Action>): Number {
    if acts == [] then 0
    else
      var n := |acts| - 1;
      if acts[n].Clear? then 0
      else if Takes(After(acts[..n]), acts[n]) && Taken(acts[..n]) == {} then acts[n].message.number
      else First(acts[..n])
  }

  /** A client that never asked has every number from the first it took up to the newest. */
  lemma {:induction false} NeverAskedNoHole(acts: seq<Action>, n: Number)
    requires forall i :: 0 <= i < |acts| ==> !Asked(acts, i)
    requires 0 < First(acts) <= n <= After(acts).lastSeen
    ensures n in Taken(acts)
  {
    var k := |acts| - 1;
    var before := acts[..k];
    forall i | 0 <= i < |before| ensures !Asked(before, i) {
      assert before[..i] == acts[..i] && !Asked(acts, i);
    }
    LastSeenIsHighest(before);
    ShowsNewestAlways(before);
    FirstTaken(before);
    if Taken(before) != {} && n <= After(before).lastSeen {
      NeverAskedNoHole(before, n);
    } else {
      assert !Asked(acts, k);
      assert First(acts) == if Taken(before) == {} then acts[k].message.number else First(before);
      NextIsTaken(After(before), Taken(before), acts[k], n);
    }
  }

  lemma NextIsTaken(c: Chat, taken: set<Number>, a: Action, n: Number)
    requires IsHighest(c.lastSeen, taken) && ShowsNewest(c.messages, taken) && Takes(c, a)
    requires Has(c.messages, a.message.number) || !NeedsHistory(c.lastSeen, a.message.number)
    requires if taken == {} then a.message.number <= n else 0 < c.lastSeen < n
    requires n <= Next(c, a).lastSeen
    ensures n == a.message.number
  {
    var m := a.message.number;
    assert Next(c, a).lastSeen == if !Has(c.messages, m) && m > c.lastSeen then m else c.lastSeen;
    if taken != {} {
      NoWrap(c.lastSeen + 1);
    }
  }

  lemma NoWrap(n: Number)
    ensures n % UINT64 == n
  {
  }

  lemma {:induction false} FirstTaken(acts: seq<Action>)
    ensures Taken(acts) != {} ==> First(acts) in Taken(acts)
  {
    if acts == [] {
    } else {
      FirstTaken(acts[..|acts| - 1]);
    }
  }

  // ----- the client's own state ------------------------------------------------------------------------

  class ChatState {
    var messages: seq<Message>
    var lastSeen: Number
    var pending: set<Nonce>
    var unread: nat
    var dialogOpen: bool
    var epoch: nat

    ghost function Value(): Chat
      reads this
    {
      Chat(messages, lastSeen, pending, unread, dialogOpen, epoch)
    }

    constructor ()
      ensures Value() == After([])
    {
      messages, lastSeen, pending, unread, dialogOpen, epoch := [], 0, {}, 0, false, 0;
    }

    method ClearChatState(newEpoch: nat)
      modifies this
      ensures Value() == Next(old(Value()), Clear(newEpoch))
    {
      messages, lastSeen, pending, unread := [], 0, {}, 0;
      epoch := newEpoch;
    }

    method FindNumber(n: Number) returns (found: bool)
      ensures found == Has(messages, n)
    {
      for i := 0 to |messages|
        invariant forall j :: 0 <= j < i ==> messages[j].number != n
      {
        if messages[i].number == n {
          return true;
        }
      }
      return false;
    }

    /** Appends, moves the new message down to its place, and drops what exceeds the limit. */
    method Insert(m: Message)
      modifies this`messages
      ensures messages == Newest(Placed(old(messages), m))
    {
      var k := |messages|;
      while k > 0 && messages[k - 1].number >= m.number
        invariant 0 <= k <= |messages|
        invariant forall i :: k <= i < |messages| ==> messages[i].number >= m.number
      {
        k := k - 1;
      }
      PlacedAt(messages, m, k);
      messages := messages[..k] + [m] + messages[k..];
      if |messages| > RETAINED_MESSAGES {
        messages := messages[|messages| - RETAINED_MESSAGES..];
      }
    }

    /** Returns the number to ask history after, or nothing to ask. */
    method AcceptChatMessage(m: Message, nonce: Nonce, mine: bool) returns (ask: bool, after: Number)
      modifies this
      ensures Value() == Accepted(old(Value()), m, nonce, mine)
      ensures ask == (!Has(old(messages), m.number) && NeedsHistory(old(lastSeen), m.number))
      ensures after == old(lastSeen)
    {
      ask, after := false, lastSeen;
      var duplicate := FindNumber(m.number);
      if duplicate {
        pending := pending - {nonce};
        return;
      }
      if m.number > (lastSeen + 1) % UINT64 && lastSeen != 0 {
        ask := true;
      }
      lastSeen := if m.number > lastSeen then m.number else lastSeen;
      Insert(m);
      pending := pending - {nonce};
      if !dialogOpen && !mine {
        unread := unread + 1;
      }
    }

    method HandleChatEvent(m: Message, nonce: Nonce, readable: bool, mine: bool) returns (ask: bool, after: Number)
      modifies this
      ensures Value() == Next(old(Value()), Arrive(m, nonce, readable, mine))
      ensures ask == (&& Takes(old(Value()), Arrive(m, nonce, readable, mine))
                      && !Has(old(messages), m.number) && NeedsHistory(old(lastSeen), m.number))
      ensures after == old(lastSeen)
    {
      ask, after := false, lastSeen;
      if m.epoch != epoch || !readable {
        return;
      }
      ask, after := AcceptChatMessage(m, nonce, mine);
    }
  }
}
