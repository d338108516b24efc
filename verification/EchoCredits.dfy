/** The round-robin table of 32 transmit credits shared by the worker and its device. */
module EchoCredits {
  import opened Wrappers

  const ECHO_CREDITS := 32

  // ---------------------------------------------------------------------------
  // The table as a value

  datatype Table = Table(used: seq<bool>, cursor: nat)

  type Credits = t: Table | |t.used| == ECHO_CREDITS && t.cursor < ECHO_CREDITS
    witness Table(seq(ECHO_CREDITS, _ => false), 0)

  function NoneAllocated(): Credits {
    Table(seq(ECHO_CREDITS, _ => false), 0)
  }

  /** How many places after the cursor the scan reaches `id`. */
  function Distance(c: Credits, id: nat): (d: nat)
    requires id < ECHO_CREDITS
    ensures d < ECHO_CREDITS
  {
    if id >= c.cursor then id - c.cursor else id + ECHO_CREDITS - c.cursor
  }

  predicate Free(c: Credits, id: nat) {
    id < ECHO_CREDITS && !c.used[id]
  }

  /** The free id the scan from the cursor meets first. */
  predicate IsNext(c: Credits, id: nat) {
    && Free(c, id)
    && forall other | 0 <= other < ECHO_CREDITS :: Free(c, other) ==> Distance(c, id) <= Distance(c, other)
  }

  function Take(c: Credits, id: nat): Credits
    requires id < ECHO_CREDITS
  {
    Table(c.used[id := true], (id + 1) % ECHO_CREDITS)
  }

  function Release(c: Credits, id: nat): Credits
    requires id < ECHO_CREDITS
  {
    c.(used := c.used[id := false])
  }

  function Scan(c: Credits, offset: nat): (r: Option<nat>)
    requires offset <= ECHO_CREDITS
    ensures r.Some? ==> Free(c, r.value) && offset <= Distance(c, r.value)
    ensures forall id :: Free(c, id) && offset <= Distance(c, id) ==> r.Some? && Distance(c, r.value) <= Distance(c, id)
    decreases ECHO_CREDITS - offset
  {
    if offset == ECHO_CREDITS then
      None
    else
      var id := (c.cursor + offset) % ECHO_CREDITS;
      if !c.used[id] then Some(id) else Scan(c, offset + 1)
  }

  /** The result of `allocate`: the next id, if any is free. */
  function Next(c: Credits): (r: Option<nat>)
    ensures r.Some? <==> exists id :: Free(c, id)
    ensures r.Some? ==> IsNext(c, r.value)
  {
    Scan(c, 0)
  }

  /** The scan has come to `offset` without finding a free id. */
  ghost predicate ScanFrom(c: Credits, offset: nat) {
    offset <= ECHO_CREDITS && Scan(c, offset) == Next(c)
  }

  lemma ScanOnce(c: Credits, offset: nat)
    requires offset < ECHO_CREDITS && ScanFrom(c, offset)
    ensures var id := (c.cursor + offset) % ECHO_CREDITS;
      if c.used[id] then ScanFrom(c, offset + 1) else Next(c) == Some(id)
  {
  }

  function InUse(s: seq<bool>): (n: nat)
    ensures n <= |s|
    ensures n == |s| <==> forall i | 0 <= i < |s| :: s[i]
  {
    if s == [] then 0 else (if s[|s| - 1] then 1 else 0) + InUse(s[..|s| - 1])
  }

  lemma {:induction false} InUseUpdate(s: seq<bool>, i: nat, b: bool)
    requires i < |s|
    ensures InUse(s[i := b]) == InUse(s) - (if s[i] then 1 else 0) + (if b then 1 else 0)
  {
    var front := s[..|s| - 1];
    if i == |s| - 1 {
      assert s[i := b][..|s| - 1] == front;
    } else {
      InUseUpdate(front, i, b);
      assert s[i := b][..|s| - 1] == front[i := b];
    }
  }

  /** `allocate` succeeds exactly when fewer than 32 credits are in use. */
  lemma AllocateSucceedsBelowLimit(c: Credits)
    ensures Next(c).Some? <==> InUse(c.used) < ECHO_CREDITS
  {
    if InUse(c.used) < ECHO_CREDITS {
      var id :| 0 <= id < ECHO_CREDITS && !c.used[id];
      assert Free(c, id);
    }
  }

  /** The ids are handed out in order from 0, and the 33rd request finds none, if nothing is released. */
  lemma {:induction false} IssuedInOrder(n: nat)
    requires n <= ECHO_CREDITS
    ensures Next(TakenFirst(n)) == (if n < 32 then Some(n) else None)
    ensures n < 32 ==> Take(TakenFirst(n), n) == TakenFirst(n + 1)
    ensures TakenFirst(0) == NoneAllocated()
  {
    var c := TakenFirst(n);
    if n < ECHO_CREDITS {
      assert Free(c, n) && Distance(c, n) == 0;
      assert Take(c, n).used == TakenFirst(n + 1).used;
    }
  }

  /** The table with the first `n` ids handed out. */
  function TakenFirst(n: nat): Credits
    requires n <= ECHO_CREDITS
  {
    Table(seq(ECHO_CREDITS, i => i < n), n % ECHO_CREDITS)
  }

  // ---------------------------------------------------------------------------
  // The table in place

  class EchoTable {
    const used: array<bool>
    var cursor: nat

    ghost predicate Valid()
      reads this, used
    {
      used.Length == ECHO_CREDITS && cursor < ECHO_CREDITS
    }

    ghost function View(): Credits
      reads this, used
      requires Valid()
    {
      Table(used[..], cursor)
    }

    constructor ()
      ensures Valid() && fresh(used)
      ensures View() == NoneAllocated()
    {
      used := new bool[ECHO_CREDITS](_ => false);
      cursor := 0;
      new;
      assert used[..] == NoneAllocated().used;
    }

    method Allocate() returns (r: Option<nat>)
      requires Valid()
      modifies this`cursor, used
      ensures Valid()
      ensures r == Next(old(View()))
      ensures View() == if r.Some? then Take(old(View()), r.value) else old(View())
    {
      ghost var before := View();
      for offset := 0 to ECHO_CREDITS
        invariant Valid() && View() == before && ScanFrom(before, offset)
      {
        var index := (cursor + offset) % ECHO_CREDITS;
        ScanOnce(before, offset);
        if !used[index] {
          TakeCredit(index);
          return Some(index);
        }
      }
      r := None;
    }

    method TakeCredit(index: nat)
      requires Valid() && index < ECHO_CREDITS
      modifies this`cursor, used
      ensures Valid() && View() == Take(old(View()), index)
    {
      used[index] := true;
      cursor := (index + 1) % ECHO_CREDITS;
    }

    /** Refuses an id out of range or not allocated, leaving the table as it was. */
    method ReleaseId(id: nat) returns (ok: bool)
      requires Valid()
      modifies used
      ensures Valid()
      ensures ok <==> id < ECHO_CREDITS && !Free(old(View()), id)
      ensures View() == if ok then Release(old(View()), id) else old(View())
    {
      if id >= ECHO_CREDITS || !used[id] {
        return false;
      }
      used[id] := false;
      ok := true;
    }

    method CountInUse() returns (n: nat)
      requires Valid()
      ensures n == InUse(View().used)
    {
      n := 0;
      for i := 0 to ECHO_CREDITS
        invariant n == InUse(used[..i])
      {
        assert used[..i + 1][..i] == used[..i];
        if used[i] {
          n := n + 1;
        }
      }
      assert used[..] == used[..ECHO_CREDITS];
    }
  }

  // ---------------------------------------------------------------------------
  // Histories of allocations and releases

  datatype Op = Allocate | ReleaseOp(id: nat)

  /** A refused release changes nothing. */
  function Apply(c: Credits, op: Op): Credits {
    match op
    case Allocate => (match Next(c) case None => c case Some(id) => Take(c, id))
    case ReleaseOp(id) => if id < ECHO_CREDITS && c.used[id] then Release(c, id) else c
  }

  /** The ids a history hands out, in order. */
  function Issued(c: Credits, ops: seq<Op>): seq<nat>
    decreases |ops|
  {
    if ops == [] then []
    else
      var rest := Issued(Apply(c, ops[0]), ops[1..]);
      if ops[0].Allocate? && Next(c).Some? then [Next(c).value] + rest else rest
  }

  function Allocations(ops: seq<Op>): nat {
    if ops == [] then 0 else (if ops[0].Allocate? then 1 else 0) + Allocations(ops[1..])
  }

  /** An allocation that passes over a free id brings the cursor strictly nearer to it. */
  lemma PassedOverComesNearer(c: Credits, id: nat)
    requires Free(c, id) && Next(c) != Some(id)
    ensures Next(c).Some? && Free(Take(c, Next(c).value), id)
    ensures Distance(Take(c, Next(c).value), id) < Distance(c, id)
  {
    var next := Next(c).value;
    assert IsNext(c, next) && Distance(c, next) < Distance(c, id);
    assert Take(c, next).cursor == if next == ECHO_CREDITS - 1 then 0 else next + 1;
  }

  /**
   Bounded waiting: whatever is released in between, a free id is handed out
   within its distance from the cursor plus one, hence 32, allocations.
   */
  lemma {:induction false} FreeIdIsIssued(c: Credits, id: nat, ops: seq<Op>)
    requires Free(c, id)
    requires Allocations(ops) > Distance(c, id)
    ensures id in Issued(c, ops)
    decreases |ops|
  {
    var c' := Apply(c, ops[0]);
    if ops[0].Allocate? {
      if Next(c) != Some(id) {
        PassedOverComesNearer(c, id);
        FreeIdIsIssued(c', id, ops[1..]);
      }
    } else {
      FreeIdIsIssued(c', id, ops[1..]);
    }
  }

  /** Releases do not move the cursor. */
  lemma {:induction false} ReleasesKeepCursor(c: Credits, ops: seq<Op>)
    requires Allocations(ops) == 0
    ensures Final(c, ops).cursor == c.cursor
    decreases |ops|
  {
    if ops != [] {
      ReleasesKeepCursor(Apply(c, ops[0]), ops[1..]);
    }
  }

  function Final(c: Credits, ops: seq<Op>): Credits
    decreases |ops|
  {
    if ops == [] then c else Final(Apply(c, ops[0]), ops[1..])
  }

  /**
   The id handed out last is, once free again, handed out next if and only if
   every other id is in use.
   */
  lemma LastIssuedIsReusedLast(c: Credits, releases: seq<Op>)
    requires Next(c).Some? && Allocations(releases) == 0
    ensures
      var id := Next(c).value;
      var after := Final(Take(c, id), releases);
      Free(after, id) ==>
        (Next(after) == Some(id) <==> forall other | 0 <= other < ECHO_CREDITS && other != id :: !Free(after, other))
  {
    var id := Next(c).value;
    ReleasesKeepCursor(Take(c, id), releases);
    var after := Final(Take(c, id), releases);
    if Free(after, id) {
      assert Distance(after, id) == ECHO_CREDITS - 1;
      forall other | 0 <= other < ECHO_CREDITS && other != id
        ensures Distance(after, other) < ECHO_CREDITS - 1
      {
      }
    }
  }
}
