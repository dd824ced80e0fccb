/**
 The claim holder every worker of every replica claims under, and exactly when
 two workers share one.
 */
module Holders {
  import opened Framing

  const MAX_ID_BYTES: nat := 256
  const SLASH: Byte := 47

  /** What a replica runs that takes reconciliation claims. */
  datatype Role = Placing | Admitting(index: nat) | Dispositions | Commands

  /** Only placement attaches; the two sweeps claim, settle and give back. */
  predicate Attaches(role: Role) { role.Placing? || role.Admitting? }

  /** A worker of one replica, which runs under an id. */
  datatype Worker = Worker(replica: nat, id: Bytes, role: Role)

  // "/admission-", "/dispositions" and "/commands".
  const ADMISSION: Bytes := [47, 97, 100, 109, 105, 115, 115, 105, 111, 110, 45]
  const DISPOSITIONS: Bytes := [47, 100, 105, 115, 112, 111, 115, 105, 116, 105, 111, 110, 115]
  const COMMANDS: Bytes := [47, 99, 111, 109, 109, 97, 110, 100, 115]

  /** The suffix that scopes a replica's id to one worker. The placement sweep has none. */
  function Suffix(role: Role): Bytes {
    match role
    case Placing => []
    case Admitting(index) => ADMISSION + Decimal(index)
    case Dispositions => DISPOSITIONS
    case Commands => COMMANDS
  }

  /** The id a suffix is put on: the replica's own, or its digest when that is too long. */
  function Effective(digest: Bytes -> Bytes, id: Bytes, suffix: Bytes): Bytes {
    if |id| + |suffix| <= MAX_ID_BYTES then id else digest(id)
  }

  function SweepHolder(digest: Bytes -> Bytes, id: Bytes, suffix: Bytes): Bytes {
    Effective(digest, id, suffix) + suffix
  }

  function HolderOf(digest: Bytes -> Bytes, w: Worker): Bytes {
    if w.role.Placing? then w.id else SweepHolder(digest, w.id, Suffix(w.role))
  }

  /** A scoped suffix starts with the one slash it contains. */
  lemma SuffixShape(role: Role)
    requires !role.Placing?
    ensures |Suffix(role)| > 0 && Suffix(role)[0] == SLASH
    ensures forall i :: 0 < i < |Suffix(role)| ==> Suffix(role)[i] != SLASH
  {
    if role.Admitting? {
      DecimalDenotes(role.index);
    }
  }

  lemma SuffixNamesRole(role: Role, other: Role)
    requires !role.Placing? && !other.Placing? && Suffix(role) == Suffix(other)
    ensures role == other
  {
    var s, t := Suffix(role), Suffix(other);
    assert s[1] == t[1] && s[2] == t[2];
    if role.Admitting? && other.Admitting? {
      assert Decimal(role.index) == s[|ADMISSION|..] == Decimal(other.index);
      DecimalDenotes(role.index);
      DecimalDenotes(other.index);
    }
  }

  /** The last slash splits a scoped holder back into its two halves. */
  lemma LastSlashSplits(a: Bytes, s: Bytes, b: Bytes, t: Bytes)
    requires |s| > 0 && s[0] == SLASH && forall i :: 0 < i < |s| ==> s[i] != SLASH
    requires |t| > 0 && t[0] == SLASH && forall i :: 0 < i < |t| ==> t[i] != SLASH
    requires a + s == b + t
    ensures a == b && s == t
  {
    var whole := a + s;
    assert whole[|a|] == SLASH && whole[|b|] == SLASH;
    assert forall k :: |a| < k < |whole| ==> whole[k] == s[k - |a|];
    assert forall k :: |b| < k < |whole| ==> whole[k] == (b + t)[k] == t[k - |b|];
    assert |a| == |b|;
    assert a == whole[..|a|] && b == whole[..|b|];
    assert s == whole[|a|..] && t == whole[|b|..];
  }

  /** Exactly when two workers claim under one holder. */
  lemma SameHolderExactly(digest: Bytes -> Bytes, w: Worker, v: Worker)
    ensures HolderOf(digest, w) == HolderOf(digest, v) <==>
      if w.role.Placing? && v.role.Placing? then w.id == v.id
      else if w.role.Placing? then w.id == Effective(digest, v.id, Suffix(v.role)) + Suffix(v.role)
      else if v.role.Placing? then v.id == Effective(digest, w.id, Suffix(w.role)) + Suffix(w.role)
      else (w.role == v.role
            && Effective(digest, w.id, Suffix(w.role)) == Effective(digest, v.id, Suffix(v.role)))
  {
    if !w.role.Placing? && !v.role.Placing? && HolderOf(digest, w) == HolderOf(digest, v) {
      SuffixShape(w.role);
      SuffixShape(v.role);
      LastSlashSplits(Effective(digest, w.id, Suffix(w.role)), Suffix(w.role),
                      Effective(digest, v.id, Suffix(v.role)), Suffix(v.role));
      SuffixNamesRole(w.role, v.role);
    }
  }

  ghost predicate DistinctHolders(digest: Bytes -> Bytes, fleet: set<Worker>) {
    forall w, v :: w in fleet && v in fleet && HolderOf(digest, w) == HolderOf(digest, v) ==> w == v
  }

  /** No worker that attaches claims under another worker's holder. */
  ghost predicate AttachersApart(digest: Bytes -> Bytes, fleet: set<Worker>) {
    forall w, v :: w in fleet && v in fleet && Attaches(w.role) && HolderOf(digest, w) == HolderOf(digest, v) ==> w == v
  }

  /** No replica's id is another's, nor some worker's scoped holder. */
  ghost predicate PlainApart(digest: Bytes -> Bytes, fleet: set<Worker>) {
    forall w, v :: w in fleet && v in fleet && w.role.Placing? && w != v ==>
      w.id != if v.role.Placing? then v.id else Effective(digest, v.id, Suffix(v.role)) + Suffix(v.role)
  }

  /** Two workers of one scoped role differ in the id it scopes. */
  ghost predicate ScopedApart(digest: Bytes -> Bytes, fleet: set<Worker>, which: Role -> bool) {
    forall w, v :: w in fleet && v in fleet && !w.role.Placing? && which(w.role) && w.role == v.role && w != v ==>
      Effective(digest, w.id, Suffix(w.role)) != Effective(digest, v.id, Suffix(v.role))
  }

  /** What a deployment has to arrange for its holders to be distinct. */
  ghost predicate Separated(digest: Bytes -> Bytes, fleet: set<Worker>) {
    PlainApart(digest, fleet) && ScopedApart(digest, fleet, role => true)
  }

  /** And what it has to arrange for its attaching workers. */
  ghost predicate AttachersSeparated(digest: Bytes -> Bytes, fleet: set<Worker>) {
    PlainApart(digest, fleet) && ScopedApart(digest, fleet, Attaches)
  }

  /** A fleet's holders are pairwise distinct exactly when its replica ids are separated. */
  lemma {:induction false} DistinctExactlyWhenSeparated(digest: Bytes -> Bytes, fleet: set<Worker>)
    ensures DistinctHolders(digest, fleet) <==> Separated(digest, fleet)
  {
    forall w, v | w in fleet && v in fleet
      ensures Separated(digest, fleet) && HolderOf(digest, w) == HolderOf(digest, v) ==> w == v
      ensures DistinctHolders(digest, fleet) && w.role.Placing? && w != v ==>
        w.id != if v.role.Placing? then v.id else Effective(digest, v.id, Suffix(v.role)) + Suffix(v.role)
      ensures DistinctHolders(digest, fleet) && !w.role.Placing? && w.role == v.role && w != v ==>
        Effective(digest, w.id, Suffix(w.role)) != Effective(digest, v.id, Suffix(v.role))
    {
      SameHolderExactly(digest, w, v);
    }
  }

  /** No attaching worker shares a holder with any other worker, exactly when these ids are separated. */
  lemma {:induction false} ApartExactlyWhenSeparated(digest: Bytes -> Bytes, fleet: set<Worker>)
    ensures AttachersApart(digest, fleet) <==> AttachersSeparated(digest, fleet)
  {
    forall w, v | w in fleet && v in fleet
      ensures AttachersSeparated(digest, fleet) && Attaches(w.role) && HolderOf(digest, w) == HolderOf(digest, v) ==>
        w == v
      ensures AttachersApart(digest, fleet) && w.role.Placing? && w != v ==>
        w.id != if v.role.Placing? then v.id else Effective(digest, v.id, Suffix(v.role)) + Suffix(v.role)
      ensures AttachersApart(digest, fleet) && !w.role.Placing? && Attaches(w.role) && w.role == v.role && w != v ==>
        Effective(digest, w.id, Suffix(w.role)) != Effective(digest, v.id, Suffix(v.role))
    {
      SameHolderExactly(digest, w, v);
    }
  }

  /**
   Ids a deployer can check one by one: each replica's own, without a slash, and short
   enough for every suffix it takes.
   */
  ghost predicate PlainIds(fleet: set<Worker>) {
    && (forall w, v :: w in fleet && v in fleet ==> (w.replica == v.replica <==> w.id == v.id))
    && forall w :: w in fleet ==> SLASH !in w.id && |w.id| + |Suffix(w.role)| <= MAX_ID_BYTES
  }

  /** Such ids are separated, whatever the digest is. */
  lemma {:induction false} PlainIdsSeparate(digest: Bytes -> Bytes, fleet: set<Worker>)
    requires PlainIds(fleet)
    ensures Separated(digest, fleet) && AttachersSeparated(digest, fleet)
  {
    hide Suffix;
    forall w, v | w in fleet && v in fleet && w.role.Placing? && w != v
      ensures w.id != if v.role.Placing? then v.id else Effective(digest, v.id, Suffix(v.role)) + Suffix(v.role)
    {
      if !v.role.Placing? {
        SuffixShape(v.role);
        var scoped := Effective(digest, v.id, Suffix(v.role));
        assert (scoped + Suffix(v.role))[|scoped|] == SLASH;
      }
    }
  }
}
