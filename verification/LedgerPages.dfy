/** api_gateway/main.py:830-879, keyset pagination of an account's ledger entries. */
module LedgerPages {
  import opened Wrappers
  import opened KoraTables

  // ----- The order of a page -----

  /** (occurred_at, id) descending: x comes before y. */
  predicate Before(x: LedgerEntry, y: LedgerEntry) {
    x.occurredAt > y.occurredAt || (x.occurredAt == y.occurredAt && x.id > y.id)
  }

  predicate Descending(s: seq<LedgerEntry>) {
    forall i, j | 0 <= i < j < |s| :: Before(s[i], s[j])
  }

  /** The primary key. */
  predicate IdsUnique(s: seq<LedgerEntry>) {
    forall i, j | 0 <= i < j < |s| :: s[i].id != s[j].id
  }

  // ----- The query -----

  /** The where-clause: own entries, strictly after the cursor entry if there is one. */
  predicate Selected(e: LedgerEntry, account: nat, cursor: Option<LedgerEntry>) {
    e.account == account && (cursor.Some? ==> Before(cursor.value, e))
  }

  lemma TailIds(s: seq<LedgerEntry>)
    requires s != []
    ensures IdsUnique(s) ==> IdsUnique(s[1..]) && forall e | e in s[1..] :: e.id != s[0].id
  {
  }

  function Filter(s: seq<LedgerEntry>, account: nat, cursor: Option<LedgerEntry>): (r: seq<LedgerEntry>)
    ensures forall e :: e in r <==> e in s && Selected(e, account, cursor)
    ensures |r| <= |s|
    ensures IdsUnique(s) ==> IdsUnique(r)
  {
    if s == [] then []
    else
      var rest := Filter(s[1..], account, cursor);
      TailIds(s);
      assert s == [s[0]] + s[1..];
      assert forall k | 0 <= k < |rest| :: rest[k] in s[1..];
      if Selected(s[0], account, cursor) then [s[0]] + rest else rest
  }

  lemma HeadFirst(s: seq<LedgerEntry>)
    requires Descending(s) && s != []
    ensures forall x | x in s[1..] :: Before(s[0], x)
  {
  }

  /** Insertion into a descending sequence. */
  function Place(e: LedgerEntry, s: seq<LedgerEntry>): (r: seq<LedgerEntry>)
    requires Descending(s) && forall x | x in s :: x.id != e.id
    ensures Descending(r) && |r| == |s| + 1
    ensures forall x :: x in r <==> x == e || x in s
  {
    if s == [] || Before(e, s[0]) then [e] + s
    else
      var rest := Place(e, s[1..]);
      assert s == [s[0]] + s[1..];
      HeadFirst(s);
      assert forall k | 0 <= k < |rest| :: rest[k] in rest;
      [s[0]] + rest
  }

  /** ORDER BY occurred_at DESC, id DESC. */
  function Ordered(s: seq<LedgerEntry>): (r: seq<LedgerEntry>)
    requires IdsUnique(s)
    ensures Descending(r) && |r| == |s|
    ensures forall x :: x in r <==> x in s
  {
    if s == [] then []
    else
      assert s == [s[0]] + s[1..];
      Place(s[0], Ordered(s[1..]))
  }

  function Take(s: seq<LedgerEntry>, n: nat): seq<LedgerEntry> {
    if n <= |s| then s[..n] else s
  }

  function Query(ledger: seq<LedgerEntry>, account: nat, cursor: Option<LedgerEntry>, limit: nat): seq<LedgerEntry>
    requires IdsUnique(ledger)
  {
    Take(Ordered(Filter(ledger, account, cursor)), limit)
  }

  /** The query in words: descending, only selected entries, and none left out that comes before a returned one. */
  lemma QueryMeaning(ledger: seq<LedgerEntry>, account: nat, cursor: Option<LedgerEntry>, limit: nat)
    requires IdsUnique(ledger)
    ensures var page := Query(ledger, account, cursor, limit);
            && Descending(page) && |page| <= limit
            && (forall e | e in page :: e in ledger && Selected(e, account, cursor))
            && (forall e | e in ledger && Selected(e, account, cursor) && e !in page ::
                  |page| == limit && forall x | x in page :: Before(x, e))
            && (|page| < limit ==> forall e | e in ledger && Selected(e, account, cursor) :: e in page)
  {
    var all := Ordered(Filter(ledger, account, cursor));
    var page := Take(all, limit);
    forall k | 0 <= k < |page| ensures all[k] in page {
      assert page[k] == all[k];
    }
    forall e | e in ledger && Selected(e, account, cursor) && e !in page
      ensures |page| == limit && forall x | x in page :: Before(x, e)
    {
      assert e in all;
      var i :| 0 <= i < |all| && all[i] == e;
    }
  }

  /** From newer to older, larger ids first among equal instants. */
  lemma NewestFirst(ledger: seq<LedgerEntry>, account: nat, cursor: Option<LedgerEntry>, limit: nat)
    requires IdsUnique(ledger)
    ensures var page := Query(ledger, account, cursor, limit);
            forall i, j | 0 <= i < j < |page| ::
              page[i].occurredAt > page[j].occurredAt || (page[i].occurredAt == page[j].occurredAt && page[i].id > page[j].id)
  {
    QueryMeaning(ledger, account, cursor, limit);
  }

  // ----- The endpoint -----

  datatype Page = Page(entries: seq<LedgerEntry>, next: Option<nat>)

  function FindOwn(ledger: seq<LedgerEntry>, account: nat, id: nat): (r: Option<LedgerEntry>)
    ensures r.Some? ==> r.value in ledger && r.value.id == id && r.value.account == account
    ensures r.None? ==> forall e | e in ledger :: !(e.id == id && e.account == account)
  {
    if ledger == [] then None
    else if ledger[0].id == id && ledger[0].account == account then Some(ledger[0])
    else FindOwn(ledger[1..], account, id)
  }

  function GetTransactions(ledger: seq<LedgerEntry>, account: nat, limit: nat, token: Option<nat>): Result<Page>
    requires IdsUnique(ledger)
  {
    var cursor := if token.Some? then FindOwn(ledger, account, token.value) else None;
    if token.Some? && cursor.None? then Failure("Invalid transaction page token")
    else
      var entries := Query(ledger, account, cursor, limit);
      Success(Page(entries, if |entries| == limit && entries != [] then Some(entries[|entries| - 1].id) else None))
  }

  /** A token is refused if and only if no entry of the account has its id. Otherwise the page has the newest own entries,
      after the token's entry if there is one, and hands out the id of its last entry exactly when it is full. */
  lemma EndpointMeaning(ledger: seq<LedgerEntry>, account: nat, limit: nat, token: Option<nat>)
    requires IdsUnique(ledger) && limit >= 1
    ensures var r := GetTransactions(ledger, account, limit, token);
            && (r.Failure? <==> token.Some? && forall e | e in ledger :: e.id != token.value || e.account != account)
            && (r.Success? ==>
                  var page := r.value;
                  && |page.entries| <= limit
                  && (page.next.Some? <==> |page.entries| == limit)
                  && (page.next.Some? ==> page.next.value == page.entries[limit - 1].id)
                  && (forall e | e in page.entries :: e in ledger && e.account == account)
                  && (token.Some? ==> exists c | c in ledger && c.id == token.value && c.account == account ::
                        forall e | e in page.entries ::
                          e.occurredAt < c.occurredAt || (e.occurredAt == c.occurredAt && e.id < c.id))
                  && (|page.entries| < limit && token.None? ==> forall e | e in ledger && e.account == account :: e in page.entries))
  {
    var cursor := if token.Some? then FindOwn(ledger, account, token.value) else None;
    if token.None? || cursor.Some? {
      QueryMeaning(ledger, account, cursor, limit);
    }
  }

  // ----- Walking the pages -----

  /** Snapshots of the ledger at successive requests: append-only, with unique ids. */
  predicate Snapshots(ls: seq<seq<LedgerEntry>>) {
    && (forall i | 0 <= i < |ls| :: IdsUnique(ls[i]))
    && (forall i, j | 0 <= i < j < |ls| :: ls[i] <= ls[j])
  }

  /** The entries n full pages hold. */
  function Capacity(limit: nat, n: nat): nat {
    if n == 0 then 0 else limit + Capacity(limit, n - 1)
  }

  lemma {:induction false} CapacityIsProduct(limit: nat, n: nat)
    ensures Capacity(limit, n) == limit * n
  {
    if n > 0 {
      CapacityIsProduct(limit, n - 1);
      assert limit * n == limit * (n - 1) + limit;
    }
  }

  /** What a client collects by following next_page_token, one snapshot a request. `done` says that it reached
      a page without token; a token the server refuses stops it too. Until then every page is full. */
  datatype Walked = Walked(entries: seq<LedgerEntry>, done: bool, refused: bool)

  function Walk(ls: seq<seq<LedgerEntry>>, account: nat, limit: nat, token: Option<nat>): (w: Walked)
    requires Snapshots(ls)
    ensures !w.done && !w.refused ==> |w.entries| == Capacity(limit, |ls|)
    decreases ls
  {
    if ls == [] then Walked([], false, false)
    else match GetTransactions(ls[0], account, limit, token)
      case Failure(_) => Walked([], false, true)
      case Success(page) =>
        if page.next.None? then Walked(page.entries, true, false)
        else
          var rest := Walk(ls[1..], account, limit, page.next);
          Walked(page.entries + rest.entries, rest.done, rest.refused)
  }

  /** The cursor a token denotes in a snapshot. */
  predicate Denotes(ledger: seq<LedgerEntry>, account: nat, token: Option<nat>, cursor: Option<LedgerEntry>) {
    if token.None? then cursor.None?
    else cursor.Some? && cursor.value in ledger && cursor.value.id == token.value && cursor.value.account == account
  }

  lemma UniqueById(ledger: seq<LedgerEntry>, x: LedgerEntry, y: LedgerEntry)
    requires IdsUnique(ledger) && x in ledger && y in ledger && x.id == y.id
    ensures x == y
  {
    var i :| 0 <= i < |ledger| && ledger[i] == x;
    var j :| 0 <= j < |ledger| && ledger[j] == y;
    assert !(i < j) && !(j < i);
  }

  lemma FindDenoted(ledger: seq<LedgerEntry>, account: nat, token: Option<nat>, cursor: Option<LedgerEntry>)
    requires IdsUnique(ledger) && Denotes(ledger, account, token, cursor)
    ensures (if token.Some? then FindOwn(ledger, account, token.value) else None) == cursor
  {
    if token.Some? {
      UniqueById(ledger, FindOwn(ledger, account, token.value).value, cursor.value);
    }
  }

  lemma PrefixHas(x: seq<LedgerEntry>, y: seq<LedgerEntry>, e: LedgerEntry)
    requires x <= y && e in x
    ensures e in y
  {
    var i :| 0 <= i < |x| && x[i] == e;
    assert y[i] == e;
  }

  lemma TailSnapshots(ls: seq<seq<LedgerEntry>>)
    requires Snapshots(ls) && ls != []
    ensures Snapshots(ls[1..])
  {
    var tail := ls[1..];
    forall i, j | 0 <= i < j < |tail| ensures tail[i] <= tail[j] {
      assert tail[i] == ls[i + 1] && tail[j] == ls[j + 1];
    }
  }

  /** A token handed out with one page is accepted with the next and means the last entry of that page. */
  lemma NextCursor(ls: seq<seq<LedgerEntry>>, account: nat, last: LedgerEntry)
    requires Snapshots(ls) && |ls| > 1 && last in ls[0] && last.account == account
    ensures Denotes(ls[1], account, Some(last.id), Some(last))
  {
    PrefixHas(ls[0], ls[1], last);
  }

  lemma BeforeTransitive(x: LedgerEntry, y: LedgerEntry, z: LedgerEntry)
    requires Before(x, y) && Before(y, z)
    ensures Before(x, z)
  {
  }

  lemma JoinDescending(xs: seq<LedgerEntry>, ys: seq<LedgerEntry>)
    requires Descending(xs) && Descending(ys) && xs != [] && forall y | y in ys :: Before(xs[|xs| - 1], y)
    ensures Descending(xs + ys)
  {
    var zs := xs + ys;
    forall i, j | 0 <= i < j < |zs| ensures Before(zs[i], zs[j]) {
      if j < |xs| {
        assert zs[i] == xs[i] && zs[j] == xs[j];
      } else if i >= |xs| {
        assert zs[i] == ys[i - |xs|] && zs[j] == ys[j - |xs|];
      } else {
        var y := ys[j - |xs|];
        assert zs[i] == xs[i] && zs[j] == y && y in ys;
        if i < |xs| - 1 {
          BeforeTransitive(xs[i], xs[|xs| - 1], y);
        }
      }
    }
  }

  /** Own entries behind a cursor, newest first. */
  predicate Behind(es: seq<LedgerEntry>, account: nat, cursor: Option<LedgerEntry>) {
    Descending(es) && forall e | e in es :: Selected(e, account, cursor)
  }

  lemma JoinBehind(page: seq<LedgerEntry>, rest: seq<LedgerEntry>, account: nat, cursor: Option<LedgerEntry>)
    requires page != [] && Behind(page, account, cursor) && Behind(rest, account, Some(page[|page| - 1]))
    ensures Behind(page + rest, account, cursor)
  {
    var last := page[|page| - 1];
    assert last in page;
    JoinDescending(page, rest);
    forall e | e in page + rest ensures Selected(e, account, cursor) {
      if e in rest && cursor.Some? {
        BeforeTransitive(cursor.value, last, e);
      }
    }
  }

  lemma QueryIsBehind(ledger: seq<LedgerEntry>, account: nat, cursor: Option<LedgerEntry>, limit: nat)
    requires IdsUnique(ledger)
    ensures Behind(Query(ledger, account, cursor, limit), account, cursor)
    ensures forall e | e in Query(ledger, account, cursor, limit) :: e in ledger
  {
    QueryMeaning(ledger, account, cursor, limit);
  }

  /** The page a token denotes. */
  lemma PageOfToken(ledger: seq<LedgerEntry>, account: nat, limit: nat, token: Option<nat>, cursor: Option<LedgerEntry>)
    requires IdsUnique(ledger) && Denotes(ledger, account, token, cursor)
    ensures var page := Query(ledger, account, cursor, limit);
            && GetTransactions(ledger, account, limit, token)
            == Success(Page(page, if |page| == limit && page != [] then Some(page[|page| - 1].id) else None))
  {
    FindDenoted(ledger, account, token, cursor);
  }

  /** What one request adds to a walk: its page, and after a full one the walk from its last entry. */
  lemma WalkStep(ls: seq<seq<LedgerEntry>>, account: nat, limit: nat, token: Option<nat>, cursor: Option<LedgerEntry>)
    requires Snapshots(ls) && ls != [] && Denotes(ls[0], account, token, cursor)
    ensures Snapshots(ls[1..])
    ensures var page, w := Query(ls[0], account, cursor, limit), Walk(ls, account, limit, token);
            if |page| == limit && page != [] then
              var rest := Walk(ls[1..], account, limit, Some(page[|page| - 1].id));
              w == Walked(page + rest.entries, rest.done, rest.refused)
            else w == Walked(page, true, false)
  {
    TailSnapshots(ls);
    PageOfToken(ls[0], account, limit, token, cursor);
  }

  /** The next request of a walk understands its token. */
  lemma TokenCarriesOn(ls: seq<seq<LedgerEntry>>, account: nat, limit: nat, cursor: Option<LedgerEntry>)
    requires Snapshots(ls) && |ls| > 1 && Query(ls[0], account, cursor, limit) != []
    ensures var page := Query(ls[0], account, cursor, limit);
            Denotes(ls[1], account, Some(page[|page| - 1].id), Some(page[|page| - 1]))
  {
    var page := Query(ls[0], account, cursor, limit);
    QueryIsBehind(ls[0], account, cursor, limit);
    assert page[|page| - 1] in page;
    NextCursor(ls, account, page[|page| - 1]);
  }

  predicate Descends(w: Walked, account: nat, cursor: Option<LedgerEntry>) {
    Behind(w.entries, account, cursor) && !w.refused
  }

  lemma StepDescends(ls: seq<seq<LedgerEntry>>, account: nat, limit: nat, token: Option<nat>, cursor: Option<LedgerEntry>)
    requires Snapshots(ls) && ls != [] && Denotes(ls[0], account, token, cursor)
    requires Snapshots(ls[1..])
    requires var page := Query(ls[0], account, cursor, limit);
             |page| == limit && page != [] ==>
               Descends(Walk(ls[1..], account, limit, Some(page[|page| - 1].id)), account, Some(page[|page| - 1]))
    ensures Descends(Walk(ls, account, limit, token), account, cursor)
  {
    WalkStep(ls, account, limit, token, cursor);
    QueryIsBehind(ls[0], account, cursor, limit);
    var page := Query(ls[0], account, cursor, limit);
    if |page| == limit && page != [] {
      JoinBehind(page, Walk(ls[1..], account, limit, Some(page[|page| - 1].id)).entries, account, cursor);
    }
  }

  /** Every walk, finished or not, under any appends between its requests, returns own entries in strictly descending
      order after its cursor, so none twice, and is never refused. */
  lemma {:induction false} WalkIsDescending(ls: seq<seq<LedgerEntry>>, account: nat, limit: nat, token: Option<nat>, cursor: Option<LedgerEntry>)
    requires Snapshots(ls) && (ls != [] ==> Denotes(ls[0], account, token, cursor))
    ensures Descends(Walk(ls, account, limit, token), account, cursor)
    decreases ls
  {
    if ls != [] {
      TailSnapshots(ls);
      var page := Query(ls[0], account, cursor, limit);
      if |page| == limit && page != [] {
        if |ls| > 1 {
          TokenCarriesOn(ls, account, limit, cursor);
        }
        WalkIsDescending(ls[1..], account, limit, Some(page[|page| - 1].id), Some(page[|page| - 1]));
      }
      StepDescends(ls, account, limit, token, cursor);
    }
  }

  /** An entry the page leaves out lies behind its last entry. */
  lemma LeftOutIsBehind(ledger: seq<LedgerEntry>, account: nat, cursor: Option<LedgerEntry>, limit: nat, e: LedgerEntry)
    requires IdsUnique(ledger) && limit >= 1 && e in ledger && Selected(e, account, cursor)
    requires e !in Query(ledger, account, cursor, limit)
    ensures var page := Query(ledger, account, cursor, limit);
            |page| == limit && Selected(e, account, Some(page[|page| - 1]))
  {
    QueryMeaning(ledger, account, cursor, limit);
    var page := Query(ledger, account, cursor, limit);
    assert page[|page| - 1] in page;
  }

  /** An entry due in a finished walk is on its first page, or due in the rest of it. */
  lemma DueNowOrLater(ls: seq<seq<LedgerEntry>>, account: nat, limit: nat, token: Option<nat>, cursor: Option<LedgerEntry>, e: LedgerEntry)
    returns (now: bool, last: LedgerEntry)
    requires Snapshots(ls) && ls != [] && Denotes(ls[0], account, token, cursor)
    requires Walk(ls, account, limit, token).done && limit >= 1
    requires e in ls[0] && Selected(e, account, cursor)
    ensures now ==> e in Walk(ls, account, limit, token).entries
    ensures !now ==>
              && |ls| > 1 && Snapshots(ls[1..]) && Denotes(ls[1], account, Some(last.id), Some(last))
              && Walk(ls[1..], account, limit, Some(last.id)).done
              && e in ls[1] && Selected(e, account, Some(last))
              && (e in Walk(ls[1..], account, limit, Some(last.id)).entries ==> e in Walk(ls, account, limit, token).entries)
  {
    WalkStep(ls, account, limit, token, cursor);
    var page := Query(ls[0], account, cursor, limit);
    now := e in page;
    last := e;
    if !now {
      LeftOutIsBehind(ls[0], account, cursor, limit, e);
      last := page[|page| - 1];
      assert ls[1..] != [];
      TokenCarriesOn(ls, account, limit, cursor);
      PrefixHas(ls[0], ls[1], e);
    }
  }

  /** A finished walk returns every own entry after its cursor that its first snapshot already had. */
  lemma {:induction false} WalkIsComplete(ls: seq<seq<LedgerEntry>>, account: nat, limit: nat, token: Option<nat>, cursor: Option<LedgerEntry>, e: LedgerEntry)
    requires Snapshots(ls) && ls != [] && Denotes(ls[0], account, token, cursor)
    requires Walk(ls, account, limit, token).done && limit >= 1
    requires e in ls[0] && Selected(e, account, cursor)
    ensures e in Walk(ls, account, limit, token).entries
    decreases ls
  {
    var now, last := DueNowOrLater(ls, account, limit, token, cursor, e);
    if !now {
      WalkIsComplete(ls[1..], account, limit, Some(last.id), Some(last), e);
    }
  }

  /** From the first page, while entries are appended between requests: a finished walk returns each entry the account
      had at the start exactly once, and whatever it returns is in strictly descending order. */
  lemma WalkEnumeratesTheLedger(ls: seq<seq<LedgerEntry>>, account: nat, limit: nat)
    requires Snapshots(ls) && ls != [] && limit >= 1 && Walk(ls, account, limit, None).done
    ensures var w := Walk(ls, account, limit, None).entries;
            && Descending(w)
            && (forall i, j | 0 <= i < j < |w| :: w[i] != w[j])
            && (forall e | e in ls[0] && e.account == account :: e in w)
            && (forall e | e in w :: e.account == account)
  {
    WalkIsDescending(ls, account, limit, None, None);
    forall e | e in ls[0] && e.account == account ensures e in Walk(ls, account, limit, None).entries {
      WalkIsComplete(ls, account, limit, None, None, e);
    }
  }

  // ----- Termination -----

  /** An entry of a walk that its first snapshot lacks comes from the rest of the walk. */
  lemma EntryOfRest(ls: seq<seq<LedgerEntry>>, account: nat, limit: nat, token: Option<nat>, cursor: Option<LedgerEntry>, e: LedgerEntry)
    returns (last: LedgerEntry)
    requires Snapshots(ls) && ls != [] && Denotes(ls[0], account, token, cursor)
    requires e in Walk(ls, account, limit, token).entries && e !in ls[0]
    ensures Snapshots(ls[1..]) && e in Walk(ls[1..], account, limit, Some(last.id)).entries
    ensures |ls| > 1 && Denotes(ls[1], account, Some(last.id), Some(last))
  {
    WalkStep(ls, account, limit, token, cursor);
    QueryIsBehind(ls[0], account, cursor, limit);
    var page := Query(ls[0], account, cursor, limit);
    last := page[|page| - 1];
    assert ls[1..] != [];
    TokenCarriesOn(ls, account, limit, cursor);
  }

  /** The last snapshot has every entry a walk returned. */
  lemma {:induction false} WalkedEntriesStay(ls: seq<seq<LedgerEntry>>, account: nat, limit: nat, token: Option<nat>, cursor: Option<LedgerEntry>, e: LedgerEntry)
    requires Snapshots(ls) && ls != [] && Denotes(ls[0], account, token, cursor)
    requires e in Walk(ls, account, limit, token).entries
    ensures e in ls[|ls| - 1]
    decreases ls
  {
    if e in ls[0] {
      PrefixHas(ls[0], ls[|ls| - 1], e);
    } else {
      var last := EntryOfRest(ls, account, limit, token, cursor, e);
      WalkedEntriesStay(ls[1..], account, limit, Some(last.id), Some(last), e);
    }
  }

  lemma OrderedDiffer(ledger: seq<LedgerEntry>, x: LedgerEntry, y: LedgerEntry)
    requires IdsUnique(ledger) && x in ledger && y in ledger && Before(x, y)
    ensures x.id != y.id
  {
    var i :| 0 <= i < |ledger| && ledger[i] == x;
    var j :| 0 <= j < |ledger| && ledger[j] == y;
    assert i < j || j < i;
  }

  lemma DescendingIds(ledger: seq<LedgerEntry>, es: seq<LedgerEntry>)
    requires IdsUnique(ledger) && Descending(es) && forall e | e in es :: e in ledger
    ensures IdsUnique(es)
  {
    forall i, j | 0 <= i < j < |es| ensures es[i].id != es[j].id {
      OrderedDiffer(ledger, es[i], es[j]);
    }
  }

  /** For every limit of at least one, whatever is appended and wherever it sorts, the walk ends by the time its pages
      could hold more than the entries there are: every full page has `limit` entries no other page has. */
  lemma WalkTerminates(ls: seq<seq<LedgerEntry>>, account: nat, limit: nat, token: Option<nat>, cursor: Option<LedgerEntry>)
    requires Snapshots(ls) && ls != [] && limit >= 1 && Denotes(ls[0], account, token, cursor)
    requires limit * |ls| > Remaining(ls[|ls| - 1], account, cursor)
    ensures Walk(ls, account, limit, token).done
  {
    var w := Walk(ls, account, limit, token).entries;
    var last := ls[|ls| - 1];
    WalkIsDescending(ls, account, limit, token, cursor);
    forall e | e in w ensures e in Filter(last, account, cursor) {
      WalkedEntriesStay(ls, account, limit, token, cursor, e);
    }
    DescendingIds(last, w);
    SameIdsNoMore(w, Filter(last, account, cursor));
    CapacityIsProduct(limit, |ls|);
  }

  /** Entries appended after the first snapshot come before all it had, as timestamps taken at insertion make them;
      from a later cursor on, only those behind the cursor matter. */
  predicate AppendsAreNewer(ls: seq<seq<LedgerEntry>>, account: nat, cursor: Option<LedgerEntry>) {
    forall i, e | 0 <= i < |ls| && e in ls[i] && Selected(e, account, cursor) && e !in ls[0] ::
      forall x | x in ls[0] && x.account == account :: Before(e, x)
  }

  /** Entries still to be returned. */
  function Remaining(ledger: seq<LedgerEntry>, account: nat, cursor: Option<LedgerEntry>): nat {
    |Filter(ledger, account, cursor)|
  }

  lemma {:induction false} SameIdsNoMore(x: seq<LedgerEntry>, y: seq<LedgerEntry>)
    requires IdsUnique(x) && (forall e | e in x :: e in y)
    ensures |x| <= |y|
    decreases |x|
  {
    if x != [] {
      var e := x[0];
      assert e in y;
      var j :| 0 <= j < |y| && y[j] == e;
      var y' := y[..j] + y[j + 1..];
      forall f | f in x[1..] ensures f in y' {
        var i :| 0 <= i < |x[1..]| && x[1..][i] == f;
        assert f == x[i + 1] && f in x && f.id != e.id;
        var k :| 0 <= k < |y| && y[k] == f;
        assert k != j;
        assert if k < j then y'[k] == f else y'[k - 1] == f;
      }
      SameIdsNoMore(x[1..], y');
    }
  }

  /** With appends newer than what the walk started with it returns nothing else. */
  lemma WalkStaysInside(ls: seq<seq<LedgerEntry>>, account: nat, limit: nat, token: Option<nat>, cursor: Option<LedgerEntry>, e: LedgerEntry)
    requires Snapshots(ls) && ls != [] && Denotes(ls[0], account, token, cursor)
    requires AppendsAreNewer(ls, account, cursor) && e in Walk(ls, account, limit, token).entries
    ensures e in ls[0]
  {
    WalkIsDescending(ls, account, limit, token, cursor);
    WalkedEntriesStay(ls, account, limit, token, cursor, e);
    QueryIsBehind(ls[0], account, cursor, limit);
    var page := Query(ls[0], account, cursor, limit);
    WalkStep(ls, account, limit, token, cursor);
    if e !in page {
      var last := page[|page| - 1];
      assert last in page && last in ls[0];
      if |ls| > 1 {
        TokenCarriesOn(ls, account, limit, cursor);
      }
      WalkIsDescending(ls[1..], account, limit, Some(last.id), Some(last));
      assert Before(last, e) && !Before(e, last);
    }
  }

  /** Then one page more than the entries it started with is enough. */
  lemma WalkIsShort(ls: seq<seq<LedgerEntry>>, account: nat, limit: nat, token: Option<nat>, cursor: Option<LedgerEntry>)
    requires Snapshots(ls) && ls != [] && limit >= 1 && Denotes(ls[0], account, token, cursor)
    requires AppendsAreNewer(ls, account, cursor)
    requires limit * |ls| > Remaining(ls[0], account, cursor)
    ensures Walk(ls, account, limit, token).done
  {
    var w := Walk(ls, account, limit, token).entries;
    WalkIsDescending(ls, account, limit, token, cursor);
    forall e | e in w ensures e in ls[0] {
      WalkStaysInside(ls, account, limit, token, cursor, e);
    }
    DescendingIds(ls[0], w);
    SameIdsNoMore(w, Filter(ls[0], account, cursor));
    CapacityIsProduct(limit, |ls|);
  }
}
