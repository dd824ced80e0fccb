/**
 The round-robin shard rotor with a kept position per shard. The source writes it
 three times; each is a class here, and all three refine the one on values.
 */
module Rotor {

  type Cursor = string
  const HEAD: Cursor := ""
  const MIN_CONTROL_SHARDS: int := 1

  // -------------------------------------------------------------- one rotor

  datatype Position = Position(next: nat, cursors: map<nat, Cursor>)

  datatype Choice = Refused | Chosen(shard: nat, cursor: Cursor)

  function KeptAt(cursors: map<nat, Cursor>, shard: nat): Cursor {
    if shard in cursors then cursors[shard] else HEAD
  }

  function Prune(cursors: map<nat, Cursor>, shards: int): map<nat, Cursor> {
    map k | k in cursors && k < shards :: cursors[k]
  }

  function ChosenShard(p: Position, shards: int): nat { if p.next >= shards then 0 else p.next }

  function Begin(p: Position, shards: int): Choice {
    if shards < MIN_CONTROL_SHARDS then Refused
    else Chosen(ChosenShard(p, shards), KeptAt(p.cursors, ChosenShard(p, shards)))
  }

  function AfterBegin(p: Position, shards: int): Position {
    if shards < MIN_CONTROL_SHARDS then p
    else Position((ChosenShard(p, shards) + 1) % shards, Prune(p.cursors, shards))
  }

  function AfterCommit(p: Position, shard: nat, cursor: Cursor): Position {
    p.(cursors := if cursor == HEAD then p.cursors - {shard} else p.cursors[shard := cursor])
  }

  // -------------------------------------------------------------- the three

  /** internal/admission: rotates under one lock hold and prunes under a second. */
  class AdmissionRotor {
    var next: nat
    var cursors: map<nat, Cursor>

    constructor ()
      ensures next == 0 && cursors == map[]
    {
      next, cursors := 0, map[];
    }

    function Abs(): Position reads this { Position(next, cursors) }

    method Rotate(shards: int) returns (ok: bool, shard: nat)
      modifies this`next
      ensures ok == (shards >= MIN_CONTROL_SHARDS)
      ensures !ok ==> next == old(next)
      ensures ok ==> shard == old(ChosenShard(Abs(), shards)) && next == (shard + 1) % shards
    {
      if shards < MIN_CONTROL_SHARDS { return false, 0; }
      if next >= shards { next := 0; }
      shard := next;
      next := (shard + 1) % shards;
      ok := true;
    }

    method BeginPass(shards: int) returns (choice: Choice)
      modifies this
      ensures choice == Begin(old(Abs()), shards) && Abs() == AfterBegin(old(Abs()), shards)
    {
      var ok, shard := Rotate(shards);
      if !ok { return Refused; }
      cursors := DropMissing(cursors, shards);
      choice := Chosen(shard, KeptAt(cursors, shard));
    }

    method Commit(shard: nat, cursor: Cursor)
      modifies this
      ensures Abs() == AfterCommit(old(Abs()), shard, cursor)
    {
      if cursor == HEAD { cursors := cursors - {shard}; return; }
      cursors := cursors[shard := cursor];
    }
  }

  /** internal/placement: prunes, then chooses, under one lock hold. */
  class PendingRotor {
    var next: nat
    var cursors: map<nat, Cursor>

    constructor ()
      ensures next == 0 && cursors == map[]
    {
      next, cursors := 0, map[];
    }

    function Abs(): Position reads this { Position(next, cursors) }

    method BeginPass(shards: int) returns (choice: Choice)
      modifies this
      ensures choice == Begin(old(Abs()), shards) && Abs() == AfterBegin(old(Abs()), shards)
    {
      if shards < MIN_CONTROL_SHARDS { return Refused; }
      if next >= shards { next := 0; }
      cursors := DropMissing(cursors, shards);
      var shard := next;
      next := (shard + 1) % shards;
      choice := Chosen(shard, KeptAt(cursors, shard));
    }

    method Commit(shard: nat, cursor: Cursor)
      modifies this
      ensures Abs() == AfterCommit(old(Abs()), shard, cursor)
    {
      if cursor == HEAD { cursors := cursors - {shard}; return; }
      cursors := cursors[shard := cursor];
    }
  }

  /** internal/reconcile: a second copy of the same order. */
  class GateRotor {
    var next: nat
    var cursors: map<nat, Cursor>

    constructor ()
      ensures next == 0 && cursors == map[]
    {
      next, cursors := 0, map[];
    }

    function Abs(): Position reads this { Position(next, cursors) }

    method BeginPass(shards: int) returns (choice: Choice)
      modifies this
      ensures choice == Begin(old(Abs()), shards) && Abs() == AfterBegin(old(Abs()), shards)
    {
      if shards < MIN_CONTROL_SHARDS { return Refused; }
      if next >= shards { next := 0; }
      cursors := DropMissing(cursors, shards);
      var shard := next;
      next := (shard + 1) % shards;
      choice := Chosen(shard, KeptAt(cursors, shard));
    }

    method Commit(shard: nat, cursor: Cursor)
      modifies this
      ensures Abs() == AfterCommit(old(Abs()), shard, cursor)
    {
      if cursor == HEAD { cursors := cursors - {shard}; return; }
      cursors := cursors[shard := cursor];
    }
  }

  /** The deletion loop all three run over the kept positions, in any order. */
  method DropMissing(kept: map<nat, Cursor>, shards: int) returns (left: map<nat, Cursor>)
    ensures left == Prune(kept, shards)
  {
    left := kept;
    var todo := kept.Keys;
    while todo != {}
      invariant todo <= kept.Keys && left.Keys <= kept.Keys
      invariant forall k :: k in left ==> left[k] == kept[k]
      invariant forall k :: k in kept ==> (k in left <==> k in todo || k < shards)
      decreases |todo|
    {
      var shard :| shard in todo;
      todo := todo - {shard};
      if shard >= shards { left := left - {shard}; }
    }
  }

  // -------------------------------------------------------------------- runs

  /** One pass: the count the store reported and the position the pass reached. */
  datatype Pass = Pass(shards: int, reached: Cursor)

  function AfterPass(p: Position, pass: Pass): Position {
    match Begin(p, pass.shards)
    case Refused => p
    case Chosen(shard, _) => AfterCommit(AfterBegin(p, pass.shards), shard, pass.reached)
  }

  /** The position before pass number i. */
  function At(start: Position, passes: seq<Pass>, i: nat): Position
    requires i <= |passes|
  {
    if i == 0 then start else AfterPass(At(start, passes, i - 1), passes[i - 1])
  }

  lemma {:induction false} ChosenOne(p: Position, shards: int)
    requires shards >= MIN_CONTROL_SHARDS
    ensures Begin(p, shards).Chosen?
  {}

  lemma {:induction false} RefusedOne(p: Position, shards: int, reached: Cursor)
    requires shards < MIN_CONTROL_SHARDS
    ensures AfterPass(p, Pass(shards, reached)) == p
  {}

  /** A later pass changes no earlier position. */
  lemma {:induction false} AtBefore(start: Position, passes: seq<Pass>, pass: Pass, i: nat)
    requires i <= |passes|
    ensures At(start, passes + [pass], i) == At(start, passes, i)
  {
    if i > 0 { AtBefore(start, passes, pass, i - 1); }
  }

  ghost predicate Swept(start: Position, passes: seq<Pass>, i: nat, shard: nat)
    requires i < |passes|
  {
    Begin(At(start, passes, i), passes[i].shards).Chosen? &&
      Begin(At(start, passes, i), passes[i].shards).shard == shard
  }

  /** Every chosen shard exists. */
  lemma {:induction false} ChosenExists(start: Position, passes: seq<Pass>, i: nat)
    requires i < |passes|
    ensures Begin(At(start, passes, i), passes[i].shards).Refused? <==> passes[i].shards < MIN_CONTROL_SHARDS
    ensures forall k: nat :: Swept(start, passes, i, k) ==> k < passes[i].shards
  {}

  lemma Advance(c: nat, n: nat)
    requires c < n
    ensures (c + 1) % n == (if c + 1 < n then c + 1 else 0)
  {}

  lemma OneAdvance(p: Position, pass: Pass)
    requires pass.shards >= MIN_CONTROL_SHARDS
    ensures var c := ChosenShard(p, pass.shards);
            ChosenShard(AfterPass(p, pass), pass.shards) == (if c + 1 < pass.shards then c + 1 else 0)
  {
    Advance(ChosenShard(p, pass.shards), pass.shards);
  }

  /** The shard i passes after one that chose `first`, around a ring of n. */
  function Around(first: nat, i: nat, n: nat): int { if first + i < n then first + i else first + i - n }

  lemma {:induction false} RotorPosition(start: Position, passes: seq<Pass>, a: nat, n: nat, i: nat)
    requires n >= 1 && a + n <= |passes| && i < n
    requires forall k :: a <= k < a + n ==> passes[k].shards == n
    ensures ChosenShard(At(start, passes, a + i), n) == Around(ChosenShard(At(start, passes, a), n), i, n)
  {
    if i > 0 {
      RotorPosition(start, passes, a, n, i - 1);
      OneAdvance(At(start, passes, a + i - 1), passes[a + i - 1]);
    }
  }

  lemma SweptAround(start: Position, passes: seq<Pass>, a: nat, n: nat, k: nat, shard: nat)
    requires n >= 1 && a + n <= |passes| && a <= k < a + n
    requires forall k :: a <= k < a + n ==> passes[k].shards == n
    ensures Swept(start, passes, k, shard) <==> shard == Around(ChosenShard(At(start, passes, a), n), k - a, n)
  {
    RotorPosition(start, passes, a, n, k - a);
    assert At(start, passes, a + (k - a)) == At(start, passes, k);
  }

  /** Any n consecutive passes at a constant count n sweep every shard exactly once. */
  lemma {:induction false} FairRound(start: Position, passes: seq<Pass>, a: nat, n: nat, shard: nat)
    requires n >= 1 && a + n <= |passes| && shard < n
    requires forall k :: a <= k < a + n ==> passes[k].shards == n
    ensures exists i :: a <= i < a + n && Swept(start, passes, i, shard)
    ensures forall i, j :: (a <= i < a + n && a <= j < a + n
                            && Swept(start, passes, i, shard) && Swept(start, passes, j, shard)) ==> i == j
  {
    var first := ChosenShard(At(start, passes, a), n);
    var found := a + if shard >= first then shard - first else shard - first + n;
    SweptAround(start, passes, a, n, found, shard);
    forall i, j | a <= i < a + n && a <= j < a + n && Swept(start, passes, i, shard) && Swept(start, passes, j, shard)
      ensures i == j
    {
      SweptAround(start, passes, a, n, i, shard);
      SweptAround(start, passes, a, n, j, shard);
    }
  }

  /** A pass that ran dropped this shard: the count it saw did not reach it. */
  predicate Shrank(pass: Pass, shard: nat) { MIN_CONTROL_SHARDS <= pass.shards <= shard }

  /**
   The position kept for a shard before pass j: what the last pass over it
   reached, unless some pass since saw a count that excludes it.
   */
  function LastReached(start: Position, passes: seq<Pass>, j: nat, shard: nat): Cursor
    requires j <= |passes|
  {
    if j == 0 then KeptAt(start.cursors, shard)
    else if Begin(At(start, passes, j - 1), passes[j - 1].shards).Chosen?
         && Begin(At(start, passes, j - 1), passes[j - 1].shards).shard == shard then passes[j - 1].reached
    else if Shrank(passes[j - 1], shard) then HEAD
    else LastReached(start, passes, j - 1, shard)
  }

  lemma {:induction false} KeptIsLastReached(start: Position, passes: seq<Pass>, j: nat, shard: nat)
    requires j <= |passes|
    ensures KeptAt(At(start, passes, j).cursors, shard) == LastReached(start, passes, j, shard)
  {
    if j > 0 {
      KeptIsLastReached(start, passes, j - 1, shard);
    }
  }

  /** Pass i was the last over the shard before j, reached the cursor, and no pass since excluded the shard. */
  ghost predicate ReachedBy(start: Position, passes: seq<Pass>, i: nat, j: nat, shard: nat, cursor: Cursor)
    requires i < j <= |passes|
  {
    && Swept(start, passes, i, shard) && passes[i].reached == cursor
    && forall m :: i < m < j ==> !Swept(start, passes, m, shard) && !Shrank(passes[m], shard)
  }

  lemma {:induction false} ReachedSince(start: Position, passes: seq<Pass>, j: nat, shard: nat)
    requires j <= |passes| && start.cursors == map[]
    requires LastReached(start, passes, j, shard) != HEAD
    ensures exists i: nat :: i < j && ReachedBy(start, passes, i, j, shard, LastReached(start, passes, j, shard))
  {
    var cursor := LastReached(start, passes, j, shard);
    if Swept(start, passes, j - 1, shard) {
      assert ReachedBy(start, passes, j - 1, j, shard, cursor);
    } else {
      ReachedSince(start, passes, j - 1, shard);
      var i: nat :| i < j - 1 && ReachedBy(start, passes, i, j - 1, shard, cursor);
      assert ReachedBy(start, passes, i, j, shard, cursor);
    }
  }

  /**
   A position handed to a pass was reached by the last pass over that shard, and
   no pass since, nor this one, saw a count at or below the shard.
   */
  lemma {:induction false} HandedOutWasReached(start: Position, passes: seq<Pass>, j: nat)
    requires j < |passes| && start.cursors == map[]
    requires Begin(At(start, passes, j), passes[j].shards).Chosen?
    ensures var c := Begin(At(start, passes, j), passes[j].shards);
            c.cursor != HEAD ==> exists i: nat :: i < j && ReachedBy(start, passes, i, j, c.shard, c.cursor)
    ensures !Shrank(passes[j], Begin(At(start, passes, j), passes[j].shards).shard)
  {
    var c := Begin(At(start, passes, j), passes[j].shards);
    KeptIsLastReached(start, passes, j, c.shard);
    if c.cursor != HEAD {
      ReachedSince(start, passes, j, c.shard);
    }
  }
}
