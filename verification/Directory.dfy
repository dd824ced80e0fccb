/**
 Candidate Hosts: one page of the capacity order, with a bounded amount of due
 cleanup spent first on the lapsed rows that occupy it.
 */
module Directory {
  import opened Common

  type Host = nat
  type Cursor = string

  /** Upper bounds the storage and session packages set. */
  datatype Bounds = Bounds(orderedPage: nat, reconcilePages: nat)

  datatype Limits = Limits(candidatePage: int, reconcilePage: int, reconcileMaxPages: int, maxCleanupAttempts: int) {
    /** NewDirectory. */
    predicate Accepted(b: Bounds) {
      && 1 <= candidatePage <= b.orderedPage && 1 <= reconcilePage <= b.orderedPage
      && 1 <= reconcileMaxPages <= b.reconcilePages && 1 <= maxCleanupAttempts <= reconcileMaxPages
    }
  }

  /** NewDirectory: each check in its turn. */
  method Validate(limits: Limits, b: Bounds) returns (ok: bool)
    ensures ok <==> limits.Accepted(b)
  {
    if limits.candidatePage < 1 || limits.candidatePage > b.orderedPage { return false; }
    if limits.reconcilePage < 1 || limits.reconcilePage > b.orderedPage { return false; }
    if limits.reconcileMaxPages < 1 || limits.reconcileMaxPages > b.reconcilePages { return false; }
    if limits.maxCleanupAttempts < 1 || limits.maxCleanupAttempts > limits.reconcileMaxPages { return false; }
    ok := true;
  }

  datatype Request = Request(limit: nat, position: Cursor)
  datatype Page = Page(hosts: seq<Host>, lapsedSkipped: nat, next: Cursor)
  datatype Cleanup = Cleanup(limit: int, maxPages: int, cursor: Cursor)
  datatype Cleaned = Cleaned(exhausted: bool, next: Cursor)

  /** What the store answers to the n-th listing and the n-th cleanup. */
  datatype Store = Store(listing: (nat, Request) -> Reply<Page>, cleaning: (nat, Cleanup) -> Reply<Cleaned>)

  // ------------------------------------------------------------- the division

  function CeilDiv(pages: nat, attempts: nat): nat
    requires attempts > 0
  { (pages + attempts - 1) / attempts }

  lemma Times(a: nat, b: int, c: int)
    requires b <= c
    ensures a * b <= a * c
  {}

  lemma CeilBrackets(pages: nat, attempts: nat)
    requires attempts > 0
    ensures attempts * (CeilDiv(pages, attempts) - 1) < pages <= attempts * CeilDiv(pages, attempts)
  {
    var n, c: int := pages + attempts - 1, CeilDiv(pages, attempts);
    assert n == attempts * c + n % attempts;
    Less(attempts, c);
  }

  /** A ceiling lies between any bounds the quotient does. */
  lemma CeilWithin(pages: nat, attempts: nat, low: nat, high: nat)
    requires attempts > 0 && attempts * low <= pages <= attempts * high
    ensures low <= CeilDiv(pages, attempts) <= high
  {
    var c := CeilDiv(pages, attempts);
    CeilBrackets(pages, attempts);
    if c > high { Times(attempts, high, c - 1); }
    if c < low { Times(attempts, c, low - 1); Less(attempts, low); }
  }

  lemma {:induction false} Less(a: nat, b: int)
    requires a > 0
    ensures a * (b - 1) == a * b - a && (a - 1) * b == a * b - b
  {}

  /** And so do the ceilings after it. */
  lemma {:induction false} RestWithin(pages: nat, attempts: nat, low: nat, high: nat)
    requires attempts > 0 && attempts * low <= pages <= attempts * high
    ensures var c := CeilDiv(pages, attempts); c <= pages && (attempts - 1) * low <= pages - c <= (attempts - 1) * high
  {
    var c: int := CeilDiv(pages, attempts);
    CeilWithin(pages, attempts, low, high);
    CeilBrackets(pages, attempts);
    hide CeilDiv;
    Less(attempts, c);
    Times(attempts - 1, c, high);
    Less(attempts, low);
    if c > low {
      Times(attempts - 1, low, c - 1);
      Less(attempts, c - 1);
    }
    if c > 0 { Times(attempts - 1, 0, c - 1); }
  }

  /** The budget each of the remaining attempts would get. */
  function Shares(pages: nat, attempts: nat): (r: seq<nat>)
    ensures |r| == attempts
    decreases attempts
  {
    if attempts == 0 then []
    else
      Times(pages, 1, attempts);
      RestWithin(pages, attempts, 0, pages);
      [CeilDiv(pages, attempts)] + Shares(pages - CeilDiv(pages, attempts), attempts - 1)
  }

  function Sum(s: seq<nat>): nat { if s == [] then 0 else s[0] + Sum(s[1..]) }

  /** The shares spend the whole budget, and no two differ by more than one page. */
  lemma {:induction false} SharesEven(pages: nat, attempts: nat)
    requires attempts > 0
    ensures Sum(Shares(pages, attempts)) == pages
    ensures forall i :: 0 <= i < attempts ==> pages / attempts <= Shares(pages, attempts)[i] <= pages / attempts + 1
  {
    FloorBrackets(pages, attempts);
    SharesWithin(pages, attempts, pages / attempts, pages / attempts + 1);
  }

  lemma FloorBrackets(pages: nat, attempts: nat)
    requires attempts > 0
    ensures attempts * (pages / attempts) <= pages <= attempts * (pages / attempts + 1)
  {
    var low := pages / attempts;
    assert pages == attempts * low + pages % attempts;
    Less(attempts, low + 1);
  }

  lemma {:induction false} SharesWithin(pages: nat, attempts: nat, low: nat, high: nat)
    requires attempts * low <= pages <= attempts * high
    ensures Sum(Shares(pages, attempts)) == pages
    ensures forall i :: 0 <= i < attempts ==> low <= Shares(pages, attempts)[i] <= high
    decreases attempts
  {
    if attempts > 0 {
      CeilWithin(pages, attempts, low, high);
      RestWithin(pages, attempts, low, high);
      hide CeilDiv;
      SharesWithin(pages - CeilDiv(pages, attempts), attempts - 1, low, high);
    }
  }

  lemma {:induction false} SumSplits(s: seq<nat>, n: nat)
    requires n <= |s|
    ensures Sum(s[..n]) + Sum(s[n..]) == Sum(s)
  {
    if n > 0 {
      SumSplits(s[1..], n - 1);
      assert s[..n][1..] == s[1..][..n - 1] && s[n..] == s[1..][n - 1..];
    }
  }

  /** However many attempts are used, the total stays within the budget; using them all spends it exactly. */
  lemma {:induction false} SpentWithinBudget(pages: nat, attempts: nat, used: nat)
    requires 0 < attempts && used <= attempts
    ensures Sum(Shares(pages, attempts)[..used]) <= pages
    ensures used == attempts ==> Sum(Shares(pages, attempts)[..used]) == pages
  {
    SharesEven(pages, attempts);
    SumSplits(Shares(pages, attempts), used);
    assert Shares(pages, attempts)[..attempts] == Shares(pages, attempts);
  }

  lemma SharesHead(pages: nat, attempts: nat)
    requires 0 < attempts <= pages
    ensures var c := CeilDiv(pages, attempts);
      && 1 <= c && attempts - 1 <= pages - c
      && Shares(pages, attempts)[0] == c && Shares(pages, attempts)[1..] == Shares(pages - c, attempts - 1)
  {
    Times(pages, 1, attempts);
    RestWithin(pages, attempts, 1, pages);
    CeilWithin(pages, attempts, 1, pages);
  }

  // ---------------------------------------------------------------- the query

  function Clamped(limits: Limits, original: Request): Request
    requires limits.candidatePage >= 1
  {
    if original.limit == 0 || original.limit > limits.candidatePage
    then original.(limit := limits.candidatePage) else original
  }

  /** Where the cleanup after this answer starts. */
  function Following(answer: Reply<Cleaned>): Cursor {
    if answer.Err? || answer.value.exhausted then "" else answer.value.next
  }

  /** Each cleanup gets its share, and takes up where the one before it stopped. */
  ghost predicate Spends(store: Store, limits: Limits, cleanups: seq<Cleanup>)
    requires 0 < limits.maxCleanupAttempts <= limits.reconcileMaxPages
  {
    var shares := Shares(limits.reconcileMaxPages, limits.maxCleanupAttempts);
    && |cleanups| <= limits.maxCleanupAttempts
    && (forall i :: 0 <= i < |cleanups| ==>
       cleanups[i].limit == limits.reconcilePage && cleanups[i].maxPages == shares[i])
    && (cleanups != [] ==> cleanups[0].cursor == "")
    && (forall i :: 0 < i < |cleanups| ==> cleanups[i].cursor == Following(store.cleaning(i - 1, cleanups[i - 1])))
  }

  /** The listing before this cleanup skipped lapsed rows. */
  ghost predicate Provoked(store: Store, query: Request, i: nat) {
    store.listing(i, query).Ok? && store.listing(i, query).value.lapsedSkipped > 0
  }

  method Candidates(store: Store, limits: Limits, b: Bounds, original: Request)
    returns (r: Reply<Page>, asked: seq<Request>, cleanups: seq<Cleanup>)
    requires limits.Accepted(b)
    ensures forall i :: 0 <= i < |asked| ==> asked[i] == Clamped(limits, original)
    ensures Spends(store, limits, cleanups) && |cleanups| <= |asked| <= |cleanups| + 1
    ensures forall i :: 0 <= i < |cleanups| ==> Provoked(store, Clamped(limits, original), i)
    ensures r.Ok? ==> r == store.listing(|cleanups|, Clamped(limits, original)) && |asked| == |cleanups| + 1
    ensures r.Ok? ==> r.value.lapsedSkipped == 0 || |cleanups| == limits.maxCleanupAttempts
    ensures r.Err? ==>
      if |asked| == |cleanups| + 1 then store.listing(|cleanups|, Clamped(limits, original)).Err?
      else cleanups != [] && store.cleaning(|cleanups| - 1, cleanups[|cleanups| - 1]).Err?
  {
    hide Shares;
    var query := original;
    if query.limit == 0 || query.limit > limits.candidatePage { query := query.(limit := limits.candidatePage); }
    var remainingPages, remainingAttempts := limits.reconcileMaxPages, limits.maxCleanupAttempts;
    var dueCursor := "";
    asked, cleanups := [], [];
    ghost var shares := Shares(limits.reconcileMaxPages, limits.maxCleanupAttempts);
    while true
      invariant forall i :: 0 <= i < |asked| ==> asked[i] == query
      invariant |asked| == |cleanups| == limits.maxCleanupAttempts - remainingAttempts
      invariant 0 <= remainingAttempts <= remainingPages
      invariant shares[|cleanups|..] == Shares(remainingPages, remainingAttempts)
      invariant Spends(store, limits, cleanups)
      invariant dueCursor ==
        (if cleanups == [] then "" else Following(store.cleaning(|cleanups| - 1, cleanups[|cleanups| - 1])))
      invariant forall i :: 0 <= i < |cleanups| ==> Provoked(store, query, i)
      decreases remainingAttempts
    {
      var page := store.listing(|asked|, query);
      asked := asked + [query];
      if page.Err? { return Err, asked, cleanups; }
      if page.value.lapsedSkipped == 0 || remainingAttempts == 0 || remainingPages == 0 {
        return page, asked, cleanups;
      }
      var pagesThisAttempt := (remainingPages + remainingAttempts - 1) / remainingAttempts;
      SharesHead(remainingPages, remainingAttempts);
      assert shares[|cleanups|] == Shares(remainingPages, remainingAttempts)[0];
      assert shares[|cleanups| + 1..] == shares[|cleanups|..][1..];
      var cleanup := Cleanup(limits.reconcilePage, pagesThisAttempt, dueCursor);
      var result := store.cleaning(|cleanups|, cleanup);
      cleanups := cleanups + [cleanup];
      if result.Err? { return Err, asked, cleanups; }
      remainingPages := remainingPages - pagesThisAttempt;
      remainingAttempts := remainingAttempts - 1;
      if result.value.exhausted { dueCursor := ""; } else { dueCursor := result.value.next; }
    }
  }
}
