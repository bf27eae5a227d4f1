/** One-to-many event delivery (event/feed.go). `Send` works on a slice of
    channels that other goroutines shrink while it runs: every atomic step is a
    method, and `Send` runs them with calls of the others in between. What they call
    and when is an input, so what `Send` does is stated in terms of it.
 */
module Feeds {

  type Chan = nat

  /** The channel in slot 0, on which a running Send takes removals. */
  const REMOVE_SUB: Chan := 0

  ghost predicate NoDup(s: seq<Chan>) {
    forall i, j :: 0 <= i < j < |s| ==> s[i] != s[j]
  }

  function Members(s: seq<Chan>): set<Chan> {
    set ch | ch in s
  }

  function Cut(s: seq<Chan>, i: nat): seq<Chan>
    requires i < |s|
  {
    s[..i] + s[i + 1..]
  }

  lemma CutFacts(s: seq<Chan>, i: nat)
    requires i < |s| && NoDup(s)
    ensures NoDup(Cut(s, i)) && Members(Cut(s, i)) == Members(s) - {s[i]}
  {
    var t := Cut(s, i);
    forall ch | ch in s && ch != s[i] ensures ch in t {
      var j :| 0 <= j < |s| && s[j] == ch;
      assert t[if j < i then j else j - 1] == ch;
    }
  }

  /** caseList.find */
  method Find(buf: array<Chan>, len: nat, ch: Chan) returns (index: int)
    requires len <= buf.Length
    ensures -1 <= index < len
    ensures index == -1 ==> ch !in buf[..len]
    ensures index >= 0 ==> buf[index] == ch && ch !in buf[..index]
  {
    index := 0;
    while index < len
      invariant 0 <= index <= len && ch !in buf[..index]
    {
      if buf[index] == ch {
        return;
      }
      index := index + 1;
    }
    index := -1;
  }

  /** caseList.delete: shifts the later cases down in place. */
  method Delete(buf: array<Chan>, len: nat, index: nat)
    requires index < len <= buf.Length
    modifies buf
    ensures buf[..len - 1] == Cut(old(buf[..len]), index)
    ensures buf[len - 1..] == old(buf[len - 1..])
  {
    var i := index;
    while i < len - 1
      invariant index <= i <= len - 1
      invariant buf[..i] == Cut(old(buf[..len]), index)[..i]
      invariant buf[i..] == old(buf[i..])
    {
      buf[i] := buf[i + 1];
      i := i + 1;
    }
  }

  /** caseList.deactivate: swaps the case behind the end of the shortened slice. */
  method Deactivate(buf: array<Chan>, len: nat, index: nat)
    requires index < len <= buf.Length
    modifies buf
    ensures buf[..] == old(buf[..])[index := old(buf[len - 1])][len - 1 := old(buf[index])]
  {
    buf[index], buf[len - 1] := buf[len - 1], buf[index];
  }

  /** Go's append, here always into new memory. */
  method Append(buf: array<Chan>, len: nat, more: seq<Chan>) returns (r: array<Chan>)
    requires len <= buf.Length
    ensures fresh(r) && r[..] == buf[..len] + more
  {
    r := new Chan[len + |more|](i requires 0 <= i < len + |more| reads buf =>
      if i < len then buf[i] else more[i - len]);
  }

  /** s is sendCases and its first `active` entries are `cases`: those after slot 0
      have not received the value, those beyond have. */
  ghost predicate Split(s: seq<Chan>, active: nat, taken: set<Chan>, delivered: seq<Chan>, removed: set<Chan>) {
    && 1 <= active <= |s| && s[0] == REMOVE_SUB && NoDup(s)
    && Members(s[1..active]) == taken - Members(delivered) - removed
    && Members(s[active..]) == Members(delivered) - removed
    && Members(delivered) <= taken && removed <= taken && REMOVE_SUB !in taken
    && NoDup(delivered)
  }

  lemma SplitAll(s: seq<Chan>, active: nat, taken: set<Chan>, delivered: seq<Chan>, removed: set<Chan>)
    requires Split(s, active, taken, delivered, removed)
    ensures Members(s) - {REMOVE_SUB} == taken - removed
  {
    MembersConcat([s[0]], s[1..active]);
    MembersConcat([s[0]] + s[1..active], s[active..]);
    assert s == [s[0]] + s[1..active] + s[active..];
    assert Members([s[0]]) == {REMOVE_SUB};
  }

  lemma MembersConcat(a: seq<Chan>, b: seq<Chan>)
    ensures Members(a + b) == Members(a) + Members(b)
  {
  }

  lemma MergeFacts(s: seq<Chan>, inbox: seq<Chan>)
    requires |s| >= 1 && s[0] == REMOVE_SUB && NoDup(s) && NoDup(inbox)
    requires REMOVE_SUB !in inbox && Members(inbox) !! Members(s)
    ensures Split(s + inbox, |s| + |inbox|, (Members(s) - {REMOVE_SUB}) + Members(inbox), [], {})
  {
    var t := s + inbox;
    forall i, j | 0 <= i < j < |t| ensures t[i] != t[j] {
      if i < |s| <= j {
        assert s[i] in Members(s) && inbox[j - |s|] in Members(inbox);
      }
    }
    assert t[1..] == s[1..] + inbox && s == [s[0]] + s[1..];
    assert t[1..|t|] == t[1..];
    assert REMOVE_SUB !in s[1..];
  }

  /** Delivering to slot i and swapping it behind `cases`. */
  lemma DeliverKeeps(s: seq<Chan>, i: nat, active: nat, taken: set<Chan>, delivered: seq<Chan>, removed: set<Chan>)
    requires Split(s, active, taken, delivered, removed) && 1 <= i < active
    ensures s[i] in taken && s[i] !in delivered
    ensures Split(s[i := s[active - 1]][active - 1 := s[i]], active - 1, taken, delivered + [s[i]], removed)
  {
    var ch, last := s[i], active - 1;
    var t := s[i := s[last]][last := ch];
    assert s[1..active][i - 1] == ch && ch in Members(s[1..active]);
    MembersConcat(delivered, [ch]);
    assert Members([ch]) == {ch};
    SwapTail(s, i, active);
    assert t[last..] == [ch] + s[active..];
    MembersConcat([ch], s[active..]);
  }

  lemma SwapTail(s: seq<Chan>, i: nat, active: nat)
    requires NoDup(s) && 1 <= i < active <= |s|
    ensures var t := s[i := s[active - 1]][active - 1 := s[i]];
      NoDup(t) && Members(t[1..active - 1]) == Members(s[1..active]) - {s[i]}
  {
    var ch, last := s[i], active - 1;
    var t := s[i := s[last]][last := ch];
    forall x ensures x in t[1..last] <==> x in s[1..active] && x != ch {
      if x in s[1..active] && x != ch {
        var k :| 1 <= k < active && s[k] == x;
        assert t[if k == last then i else k] == x;
        assert t[1..last][(if k == last then i else k) - 1] == x;
      }
      if x in t[1..last] {
        var k :| 1 <= k < last && t[k] == x;
        assert s[1..active][(if k == i then last else k) - 1] == x;
      }
    }
  }

  lemma WhichSide(s: seq<Chan>, i: nat, active: nat, taken: set<Chan>, delivered: seq<Chan>, removed: set<Chan>)
    requires Split(s, active, taken, delivered, removed) && 1 <= i < |s|
    ensures i < active <==> s[i] !in delivered
  {
    if i < active {
      assert s[1..active][i - 1] == s[i] && s[i] in Members(s[1..active]);
    } else {
      assert s[active..][i - active] == s[i] && s[i] in Members(s[active..]);
    }
    SplitAll(s, active, taken, delivered, removed);
  }

  /** Deleting a subscriber shortens `cases` exactly when it was still in it. */
  lemma RemoveKeeps(s: seq<Chan>, i: nat, active: nat, taken: set<Chan>, delivered: seq<Chan>, removed: set<Chan>)
    requires Split(s, active, taken, delivered, removed) && 1 <= i < |s|
    ensures Split(Cut(s, i), if i < active then active - 1 else active, taken, delivered, removed + {s[i]})
    ensures Members(Cut(s, i)) == Members(s) - {s[i]}
  {
    CutFacts(s, i);
    if i < active {
      CutFacts(s[1..active], i - 1);
      CutInside(s, i, active);
      assert forall k :: 0 <= k < |s[active..]| ==> s[active..][k] == s[k + active];
      assert s[i] !in Members(s[active..]);
      assert s[1..active][i - 1] == s[i] && s[i] in Members(s[1..active]);
    } else {
      CutFacts(s[active..], i - active);
      CutOutside(s, i, active);
      assert s[active..][i - active] == s[i] && s[i] in Members(s[active..]);
    }
  }

  lemma CutInside(s: seq<Chan>, i: nat, active: nat)
    requires 1 <= i < active <= |s|
    ensures Cut(s, i)[1..active - 1] == Cut(s[1..active], i - 1) && Cut(s, i)[active - 1..] == s[active..]
  {
    var t, a, b := Cut(s, i), Cut(s, i)[1..active - 1], Cut(s[1..active], i - 1);
    assert |a| == |b|;
    forall k | 0 <= k < |a| ensures a[k] == b[k] {
      assert a[k] == t[k + 1];
    }
    forall k | 0 <= k < |s| - active ensures t[active - 1..][k] == s[active..][k] {
      assert t[active - 1..][k] == t[active - 1 + k];
    }
    assert t[active - 1..] == s[active..];
  }

  lemma CutOutside(s: seq<Chan>, i: nat, active: nat)
    requires 1 <= active <= i < |s|
    ensures Cut(s, i)[1..active] == s[1..active] && Cut(s, i)[active..] == Cut(s[active..], i - active)
  {
    var t, a, b := Cut(s, i), Cut(s, i)[active..], Cut(s[active..], i - active);
    assert |a| == |b|;
    forall k | 0 <= k < |a| ensures a[k] == b[k] {
      assert a[k] == t[k + active];
    }
    assert t[1..active] == s[1..active];
  }

  /** The channels tried, each once, and those left are all. */
  ghost predicate Trying(tried: seq<Chan>, left: set<Chan>, all: set<Chan>) {
    NoDup(tried) && Members(tried) !! left && Members(tried) + left == all
  }

  lemma NoChannels(s: seq<Chan>)
    requires |s| == 0
    ensures Members(s) == {}
  {
  }

  lemma NoneTried(all: set<Chan>)
    ensures Trying([], all, all)
  {
  }

  lemma TriedOne(tried: seq<Chan>, ch: Chan, left: set<Chan>, all: set<Chan>)
    requires Trying(tried, left, all)
    ensures ch in left ==> Trying(tried + [ch], left - {ch}, all)
  {
    assert Members(tried + [ch]) == Members(tried) + {ch};
  }

  lemma AllTried(tried: seq<Chan>, all: set<Chan>)
    requires Trying(tried, {}, all)
    ensures NoDup(tried) && Members(tried) == all
  {
  }

  lemma Slices(buf: array<Chan>, len: nat, i: nat, active: nat)
    requires i <= active <= len <= buf.Length
    ensures buf[..len][i..active] == buf[i..active]
    ensures i < active ==> buf[..len][i + 1..active] == buf[i + 1..active]
  {
  }

  /** What is left to try after slot i, and after swapping it with the last active one. */
  lemma NextTried(s: seq<Chan>, i: nat, active: nat)
    requires NoDup(s) && i < active <= |s|
    ensures s[i] in Members(s[i..active])
    ensures Members(s[i + 1..active]) == Members(s[i..active]) - {s[i]}
    ensures Members(s[i := s[active - 1]][active - 1 := s[i]][i..active - 1]) == Members(s[i..active]) - {s[i]}
  {
    var rest, window := s[i + 1..active], s[i..active];
    var swapped := s[i := s[active - 1]][active - 1 := s[i]][i..active - 1];
    assert window == [s[i]] + rest && s[i] !in rest;
    if |rest| > 0 {
      var last := |rest| - 1;
      assert rest == rest[..last] + [rest[last]] && rest[last] == s[active - 1];
      assert swapped == [rest[last]] + rest[..last];
    } else {
      assert swapped == rest == [];
    }
  }

  /** What another goroutine calls. */
  datatype Call = Join(ch: Chan) | Leave(ch: Chan)

  /** Whether ch is subscribed after some calls: the last one about it decides. */
  predicate Standing(calls: seq<Call>, ch: Chan, was: bool) {
    if calls == [] then was
    else var last := calls[|calls| - 1];
      if last.ch == ch then last.Join? else Standing(calls[..|calls| - 1], ch, was)
  }

  lemma StandingMore(calls: seq<Call>, i: nat, ch: Chan, was: bool)
    requires i < |calls|
    ensures calls[i].ch == ch ==> Standing(calls[..i + 1], ch, was) == calls[i].Join?
    ensures calls[i].ch != ch ==> Standing(calls[..i + 1], ch, was) == Standing(calls[..i], ch, was)
    ensures Leave(ch) in calls[..i + 1] <==> Leave(ch) in calls[..i] || calls[i] == Leave(ch)
  {
    assert calls[..i + 1] == calls[..i] + [calls[i]];
    assert calls[..i + 1][..i] == calls[..i];
  }

  lemma StandingAll(calls: seq<Call>, i: nat, inbox: seq<Chan>)
    requires i < |calls|
    ensures forall ch :: calls[i].ch == ch ==> Standing(calls[..i + 1], ch, ch in inbox) == calls[i].Join?
    ensures forall ch :: calls[i].ch != ch ==>
              Standing(calls[..i + 1], ch, ch in inbox) == Standing(calls[..i], ch, ch in inbox)
    ensures forall ch :: Leave(ch) in calls[..i + 1] <==> Leave(ch) in calls[..i] || calls[i] == Leave(ch)
  {
    forall ch | calls[i].ch != ch
      ensures Standing(calls[..i + 1], ch, ch in inbox) == Standing(calls[..i], ch, ch in inbox)
    {
      StandingMore(calls, i, ch, ch in inbox);
    }
    StandingMore(calls, i, calls[i].ch, calls[i].ch in inbox);
    forall ch ensures Leave(ch) in calls[..i + 1] <==> Leave(ch) in calls[..i] || calls[i] == Leave(ch) {
      StandingMore(calls, i, ch, false);
    }
  }

  lemma StandingNone(inbox: seq<Chan>)
    ensures forall ch :: Standing([], ch, ch in inbox) <==> ch in inbox
  {
  }

  lemma NothingAsked(turns: nat -> seq<Call>)
    ensures forall ch :: !Asked(turns, 0, ch) && !Stands(turns, 0, ch)
  {
  }

  /** The same over a number of turns of the others. */
  predicate Stands(turns: nat -> seq<Call>, used: nat, ch: Chan) {
    used > 0 && Standing(turns(used - 1), ch, Stands(turns, used - 1, ch))
  }

  /** ch was unsubscribed in one of the turns. */
  predicate Asked(turns: nat -> seq<Call>, used: nat, ch: Chan) {
    exists k :: 0 <= k < used && Leave(ch) in turns(k)
  }

  lemma AskedMore(turns: nat -> seq<Call>, used: nat, ch: Chan)
    ensures Asked(turns, used + 1, ch) <==> Asked(turns, used, ch) || Leave(ch) in turns(used)
  {
    if Asked(turns, used + 1, ch) {
      var k :| 0 <= k < used + 1 && Leave(ch) in turns(k);
    }
  }

  class Feed {
    var buf: array<Chan>    // the memory behind sendCases
    var len: nat            // sendCases is buf[..len]
    var inbox: seq<Chan>    // subscribed, not yet in sendCases
    var sending: bool       // some Send holds sendLock
    var active: nat         // the running Send's `cases` is buf[..active]
    var nsent: nat
    var leaving: set<Chan>  // Unsubscribe calls past the inbox check, waiting for Send or sendLock

    // History of the running (or last) Send.
    ghost var taken: set<Chan>      // subscribers it started with
    ghost var delivered: seq<Chan>  // channels that received the value, in order
    ghost var removed: set<Chan>    // subscribers removed while it ran

    /** The subscribers in sendCases. */
    ghost function Subscribers(): set<Chan>
      reads this, buf
      requires len <= buf.Length
    {
      Members(buf[..len]) - {REMOVE_SUB}
    }

    ghost predicate Valid()
      reads this, buf
    {
      && 1 <= len <= buf.Length
      && buf[0] == REMOVE_SUB
      && NoDup(buf[..len]) && NoDup(inbox)
      && REMOVE_SUB !in inbox && Members(inbox) !! Subscribers()
      && leaving <= Subscribers()
      && (sending ==> Split(buf[..len], active, taken, delivered, removed) && nsent == |delivered|)
    }

    constructor ()
      ensures Valid() && Subscribers() == {} && inbox == [] && !sending && leaving == {}
    {
      buf := new Chan[1](_ => REMOVE_SUB);
      len, inbox, sending, active, nsent, leaving := 1, [], false, 1, 0, {};
      taken, delivered, removed := {}, [], {};
    }

    method Subscribe(ch: Chan)
      requires Valid()
      requires ch != REMOVE_SUB && ch !in inbox && ch !in Subscribers()  // one subscription per channel
      modifies this`inbox
      ensures Valid() && inbox == old(inbox) + [ch]
    {
      inbox := inbox + [ch];
      assert Members(inbox) == Members(old(inbox)) + {ch};
    }

    /** The part of `remove` under mu: a channel still in the inbox goes at once,
        any other one waits for a running Send or for sendLock. */
    method Unsubscribe(ch: Chan)
      requires Valid()
      requires ch in inbox || (ch in Subscribers() && ch !in leaving)  // subscribed, not unsubscribed before
      modifies this`inbox, this`leaving
      ensures Valid()
      ensures Members(inbox) == Members(old(inbox)) - {ch}
      ensures leaving == if ch in old(inbox) then old(leaving) else old(leaving) + {ch}
    {
      if ch in inbox {
        var i :| 0 <= i < |inbox| && inbox[i] == ch;
        CutFacts(inbox, i);
        inbox := Cut(inbox, i);
      } else {
        leaving := leaving + {ch};
      }
    }

    /** A waiting Unsubscribe gets sendLock: no Send is running. */
    method RemoveIdle(ch: Chan)
      requires Valid() && !sending && ch in leaving
      modifies this`len, this`leaving, buf
      ensures Valid() && buf == old(buf)
      ensures Subscribers() == old(Subscribers()) - {ch} && leaving == old(leaving) - {ch}
    {
      var index := Find(buf, len, ch);
      CutFacts(buf[..len], index);
      Delete(buf, len, index);
      len, leaving := len - 1, leaving - {ch};
    }

    /** Send takes sendLock and merges the inbox into sendCases. */
    method Begin()
      requires Valid() && !sending
      modifies this
      ensures Valid() && sending && inbox == [] && leaving == old(leaving) && fresh(buf)
      ensures taken == old(Subscribers()) + Members(old(inbox)) && Subscribers() == taken
      ensures active == len && nsent == 0 && delivered == [] && removed == {}
    {
      var merged := Append(buf, len, inbox);
      taken, delivered, removed := Subscribers() + Members(inbox), [], {};
      MergeFacts(buf[..len], inbox);
      buf, len, inbox := merged, len + |inbox|, [];
      sending, active, nsent := true, len, 0;
      assert buf[..len] == buf[..];
      SplitAll(buf[..len], active, taken, delivered, removed);
    }

    /** A send to the channel in slot i went through (fast path or select). */
    method Deliver(i: nat)
      requires Valid() && sending && 1 <= i < active
      modifies this`active, this`nsent, this`delivered, buf
      ensures Valid() && sending && buf == old(buf) && Subscribers() == old(Subscribers())
      ensures old(buf[i]) in taken && old(buf[i]) !in old(delivered)
      ensures delivered == old(delivered) + [old(buf[i])] && nsent == old(nsent) + 1 && active == old(active) - 1
      ensures buf[..i] == old(buf[..i])
      ensures buf[..len] == old(buf[..len])[i := old(buf[active - 1])][active := old(buf[i])]
    {
      DeliverKeeps(buf[..len], i, active, taken, delivered, removed);
      delivered, nsent := delivered + [buf[i]], nsent + 1;
      Deactivate(buf, active, i);
      active := active - 1;
      assert buf[..len] == old(buf[..len])[i := old(buf[active - 1])][active := old(buf[i])];
      SplitAll(old(buf[..len]), old(active), taken, old(delivered), removed);
      SplitAll(buf[..len], active, taken, delivered, removed);
    }

    /** The select took a removal: a waiting Unsubscribe hands its channel to Send. */
    method TakeRemoval(ch: Chan)
      requires Valid() && sending && ch in leaving
      modifies this`len, this`active, this`leaving, this`removed, buf
      ensures Valid() && sending && buf == old(buf) && len == old(len) - 1
      ensures Subscribers() == old(Subscribers()) - {ch} && leaving == old(leaving) - {ch}
      ensures removed == old(removed) + {ch}
      ensures active == if ch in delivered then old(active) else old(active) - 1
    {
      var index := Find(buf, len, ch);
      WhichSide(buf[..len], index, active, taken, delivered, removed);
      RemoveKeeps(buf[..len], index, active, taken, delivered, removed);
      Delete(buf, len, index);
      len := len - 1;
      if index < active {
        active := active - 1;
      }
      leaving, removed := leaving - {ch}, removed + {ch};
    }

    /** Everybody was served: Send hands sendLock back. */
    method End()
      requires Valid() && sending && active == 1
      modifies this`sending
      ensures Valid() && !sending
      ensures Members(delivered) - removed == taken - removed && Subscribers() == taken - removed
      ensures removed <= taken && Members(delivered) <= taken && NoDup(delivered) && nsent == |delivered|
    {
      SplitAll(buf[..len], active, taken, delivered, removed);
      assert Members(buf[1..1]) == {};
      sending := false;
    }

    /** What other goroutines do between two steps of a running Send: any Subscribe and
        Unsubscribe calls, of which those on channels with no such subscription are ignored. */
    method Others(calls: seq<Call>)
      requires Valid()
      modifies this`inbox, this`leaving
      ensures Valid()
      ensures forall ch :: ch in Subscribers() ==> (ch in leaving <==> ch in old(leaving) || Leave(ch) in calls)
      ensures forall ch :: ch != REMOVE_SUB && ch !in Subscribers() ==>
                (ch in inbox <==> Standing(calls, ch, ch in old(inbox)))
    {
      hide NoDup, Split, Standing;
      StandingNone(old(inbox));
      for i := 0 to |calls|
        invariant Valid()
        invariant forall ch :: ch in Subscribers() ==>
                  (ch in leaving <==> ch in old(leaving) || Leave(ch) in calls[..i])
        invariant forall ch :: ch != REMOVE_SUB && ch !in Subscribers() ==>
                    (ch in inbox <==> Standing(calls[..i], ch, ch in old(inbox)))
      {
        StandingAll(calls, i, old(inbox));
        OneCall(calls[i]);
      }
      assert calls[..|calls|] == calls;
    }

    method OneCall(call: Call)
      requires Valid()
      modifies this`inbox, this`leaving
      ensures Valid()
      ensures forall ch :: ch in Subscribers() ==> (ch in leaving <==> ch in old(leaving) || call == Leave(ch))
      ensures forall ch :: ch != REMOVE_SUB && ch !in Subscribers() ==>
                (ch in inbox <==> if call.ch == ch then call.Join? else ch in old(inbox))
    {
      hide NoDup, Split;
      var ch := call.ch;
      assert forall x :: x in Members(inbox) <==> x in inbox;
      if call.Join? && ch != REMOVE_SUB && ch !in inbox && ch !in buf[..len] {
        Subscribe(ch);
      } else if call.Leave? && (ch in inbox || (ch != REMOVE_SUB && ch in buf[..len] && ch !in leaving)) {
        Unsubscribe(ch);
        assert forall x :: x in Members(inbox) <==> x in inbox;
      }
    }

    /** What the calls of the others have come to so far: only channels that were asked to
        leave were removed, those asked and not removed are leaving, and the inbox has
        exactly the new channels that joined and did not leave again. */
    ghost predicate Follows(turns: nat -> seq<Call>, used: nat, before: set<Chan>)
      reads this
    {
      && (forall ch :: ch in removed ==> ch in before || Asked(turns, used, ch))
      && (forall ch :: ch in taken - removed ==> (ch in leaving <==> ch in before || Asked(turns, used, ch)))
      && (forall ch :: ch != REMOVE_SUB && ch !in taken ==> (ch in inbox <==> Stands(turns, used, ch)))
    }

    /** A turn of the others while Send runs. */
    method Turn(turns: nat -> seq<Call>, used: nat, ghost before: set<Chan>)
      requires Valid() && sending && Follows(turns, used, before)
      modifies this`inbox, this`leaving
      ensures Valid() && Follows(turns, used + 1, before)
    {
      hide NoDup, Asked;
      SplitAll(buf[..len], active, taken, delivered, removed);
      forall ch {
        AskedMore(turns, used, ch);
      }
      Others(turns(used));
    }

    /** The active cases from slot i on. */
    ghost function From(i: nat): set<Chan>
      reads this, buf
      requires i <= active <= buf.Length
    {
      Members(buf[i..active])
    }

    /** TrySend on slot i, with the others free to act before it. */
    method TryCase(i: nat, turns: nat -> seq<Call>, used: nat, ghost before: set<Chan>) returns (sent: bool)
      requires Valid() && sending && 1 <= i < active <= len && Follows(turns, used, before)
      modifies this`active, this`nsent, this`delivered, this`inbox, this`leaving, buf
      ensures Valid() && sending && buf == old(buf) && len == old(len) && i <= active <= len
      ensures Follows(turns, used + 1, before)
      ensures old(buf[i]) in old(From(i))
      ensures if sent then active == old(active) - 1 && From(i) == old(From(i)) - {old(buf[i])}
              else active == old(active) && From(i + 1) == old(From(i)) - {old(buf[i])}
    {
      hide Valid, NoDup, Members, Asked, Stands;
      Turn(turns, used, before);
      ActiveBounds();
      NextTried(buf[..len], i, active);
      Slices(buf, len, i, active);
      sent := *;
      if sent {
        Deliver(i);
        Slices(buf, len, i, active);
      }
    }

    /** Tries every active case exactly once without blocking; a delivery moves another
        untried case into the slot, which is then tried next. */
    method FastPath(turns: nat -> seq<Call>, used: nat, ghost before: set<Chan>)
      returns (used': nat, ghost tried: seq<Chan>)
      requires Valid() && sending && Follows(turns, used, before)
      modifies this`active, this`nsent, this`delivered, this`inbox, this`leaving, buf
      ensures Valid() && sending && active <= old(active) && buf == old(buf) && Follows(turns, used', before)
      ensures NoDup(tried) && Members(tried) == old(Members(buf[1..active]))
    {
      hide Valid, NoDup, Members, Follows;
      ActiveBounds();
      var i := 1;
      used', tried := used, [];
      ghost var all := From(1);
      NoneTried(all);
      while i < active
        invariant 1 <= i <= active <= len && active <= old(active) && Valid() && sending
        invariant buf == old(buf) && len == old(len) <= buf.Length && Follows(turns, used', before)
        invariant Trying(tried, From(i), all)
        decreases active - i
      {
        TriedOne(tried, buf[i], From(i), all);
        tried := tried + [buf[i]];
        var sent := TryCase(i, turns, used', before);
        used' := used' + 1;
        if !sent {
          i := i + 1;
        }
      }
      assert From(active) == {} by { NoChannels(buf[active..active]); }
      AllTried(tried, all);
    }

    lemma ActiveBounds()
      requires Valid() && sending
      ensures 1 <= active <= len <= buf.Length && NoDup(buf[..len])
    {
    }

    /** The select wakes on a removal or on any channel that can take the value. */
    method Select(ghost turns: nat -> seq<Call>, ghost used: nat, ghost before: set<Chan>)
      requires Valid() && sending && active > 1 && Follows(turns, used, before)
      modifies this`len, this`active, this`nsent, this`delivered, this`leaving, this`removed, buf
      ensures Valid() && sending && buf == old(buf) && Follows(turns, used, before) && len + active < old(len + active)
    {
      hide NoDup, Asked, Stands;
      var chosen :| 0 <= chosen < active && (chosen == 0 ==> leaving != {});
      if chosen == 0 {
        var ch :| ch in leaving;
        SplitAll(buf[..len], active, taken, delivered, removed);
        TakeRemoval(ch);
      } else {
        Deliver(chosen);
      }
    }

    /** Delivers to all subscribers, whatever the others call meanwhile; turns(k) is what
        they call at the k-th chance. The value goes exactly once to each subscriber nobody
        unsubscribes, at most once to one that leaves, and never to one that joined after
        the start. */
    method Send(turns: nat -> seq<Call>) returns (sent: nat, ghost used: nat)
      requires Valid() && !sending
      modifies this, buf
      ensures Valid() && !sending
      ensures taken == old(Subscribers()) + Members(old(inbox)) && removed <= taken
      ensures NoDup(delivered) && sent == |delivered|
      ensures taken - removed <= Members(delivered) <= taken
      ensures Subscribers() == taken - removed && Follows(turns, used, old(leaving))
      ensures forall ch :: ch in taken && ch !in old(leaving) && !Asked(turns, used, ch) ==>
                ch in delivered && ch in Subscribers()
    {
      hide Asked, Stands, NoDup, Split;
      Begin();
      var clock := 0;
      NothingAsked(turns);
      while true
        invariant Valid() && sending && fresh(buf) && Follows(turns, clock, old(leaving))
        invariant taken == old(Subscribers()) + Members(old(inbox))
        decreases len + active
      {
        ghost var tried;
        clock, tried := FastPath(turns, clock, old(leaving));
        ActiveBounds();
        if active == 1 {
          break;
        }
        Turn(turns, clock, old(leaving));
        clock := clock + 1;
        Select(turns, clock, old(leaving));
      }
      End();
      sent, used := nsent, clock;
    }
  }
}
