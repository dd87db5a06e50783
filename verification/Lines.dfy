/** The split-aware line view of a plan: what a line is, how it is named, and that every dollar is in one line. */
module Lines {
  import opened Prelude
  import opened Mirror

  /** One plan's tables as a query reads them, in any row order. */
  datatype Source = Source(txns: seq<Txn>, subs: seq<Sub>, accounts: seq<Account>, payees: seq<Payee>,
                           categories: seq<Category>, groups: seq<Group>)

  /** Primary keys hold. */
  ghost predicate Keys(s: Source) {
    && Distinct(s.txns, TxnKey) && Distinct(s.subs, SubKey) && Distinct(s.accounts, AccountKey)
    && Distinct(s.payees, PayeeKey) && Distinct(s.categories, CategoryKey) && Distinct(s.groups, GroupKey)
  }

  datatype Line = Line(transactionId: Id, subId: Id, date: string, amount: int, accountId: Id, payeeId: Option<Id>,
                       categoryId: Option<Id>, transferAccountId: Option<Id>, approved: bool,
                       importPayee: Option<string>)

  predicate IsPart(s: Sub, t: Txn) { s.transactionId == t.id && !s.deleted && !t.deleted }

  predicate HasLiveSub(subs: seq<Sub>, id: Id) {
    exists i | 0 <= i < |subs| :: subs[i].transactionId == id && !subs[i].deleted
  }

  function WholeLine(t: Txn): Line {
    Line(t.id, "", t.date, t.amount, t.accountId, t.payeeId, t.categoryId, t.transferAccountId, t.approved,
         t.importPayee)
  }

  function PartLine(s: Sub, t: Txn): Line {
    Line(t.id, s.id, t.date, s.amount, t.accountId, if s.payeeId.Some? then s.payeeId else t.payeeId,
         s.categoryId, s.transferAccountId, t.approved, t.importPayee)
  }

  /** Live transactions with no live subtransaction. */
  function Unsplit(txns: seq<Txn>, subs: seq<Sub>): seq<Line> {
    if txns == [] then []
    else
      var t := txns[|txns| - 1];
      Unsplit(txns[..|txns| - 1], subs) + if !t.deleted && !HasLiveSub(subs, t.id) then [WholeLine(t)] else []
  }

  /** One subtransaction joined with the transactions. */
  function PartsOf(s: Sub, txns: seq<Txn>): seq<Line> {
    if txns == [] then []
    else
      var t := txns[|txns| - 1];
      PartsOf(s, txns[..|txns| - 1]) + if IsPart(s, t) then [PartLine(s, t)] else []
  }

  function Parts(subs: seq<Sub>, txns: seq<Txn>): seq<Line> {
    if subs == [] then [] else Parts(subs[..|subs| - 1], txns) + PartsOf(subs[|subs| - 1], txns)
  }

  /** The lines CTE: UNION ALL of both kinds. */
  function LinesOf(s: Source): seq<Line> {
    Unsplit(s.txns, s.subs) + Parts(s.subs, s.txns)
  }

  function LineId(l: Line): (Id, Id) { (l.transactionId, l.subId) }

  // ---- What the lines say

  /** The one line of a live transaction without live parts. */
  ghost predicate WholeOf(l: Line, t: Txn, subs: seq<Sub>) {
    && !t.deleted && (forall s :: s in subs && s.transactionId == t.id ==> s.deleted)
    && l.transactionId == t.id && l.subId == "" && l.amount == t.amount
    && l.categoryId == t.categoryId && l.transferAccountId == t.transferAccountId && l.payeeId == t.payeeId
    && l.date == t.date && l.accountId == t.accountId && l.approved == t.approved && l.importPayee == t.importPayee
  }

  /** The line of a live part: amount, category and transfer are its own, the payee too if it has one; the rest is
      its live parent's. */
  ghost predicate PartOf(l: Line, s: Sub, t: Txn) {
    && !s.deleted && !t.deleted && s.transactionId == t.id
    && l.transactionId == t.id && l.subId == s.id && l.amount == s.amount
    && l.categoryId == s.categoryId && l.transferAccountId == s.transferAccountId
    && (s.payeeId.Some? ==> l.payeeId == s.payeeId) && (s.payeeId.None? ==> l.payeeId == t.payeeId)
    && l.date == t.date && l.accountId == t.accountId && l.approved == t.approved && l.importPayee == t.importPayee
  }

  ghost predicate IsWhole(l: Line, txns: seq<Txn>, subs: seq<Sub>) { exists t :: t in txns && WholeOf(l, t, subs) }
  ghost predicate IsPartOf(l: Line, s: Sub, txns: seq<Txn>) { exists t :: t in txns && PartOf(l, s, t) }
  ghost predicate IsSomePart(l: Line, subs: seq<Sub>, txns: seq<Txn>) {
    exists s :: s in subs && IsPartOf(l, s, txns)
  }

  lemma {:induction false} LiveSubsMean(subs: seq<Sub>, id: Id)
    ensures HasLiveSub(subs, id) <==> exists s :: s in subs && s.transactionId == id && !s.deleted
  {
    assert forall i :: 0 <= i < |subs| ==> subs[i] in subs;
  }

  lemma {:induction false} WholesAre(l: Line, txns: seq<Txn>, subs: seq<Sub>)
    ensures l in Unsplit(txns, subs) <==> IsWhole(l, txns, subs)
  {
    if txns != [] {
      var init, t := txns[..|txns| - 1], txns[|txns| - 1];
      WholesAre(l, init, subs);
      LiveSubsMean(subs, t.id);
      assert txns == init + [t];
      assert WholeOf(l, t, subs) <==> !t.deleted && !HasLiveSub(subs, t.id) && l == WholeLine(t);
    }
  }

  lemma {:induction false} PartsOfOneAre(l: Line, s: Sub, txns: seq<Txn>)
    ensures l in PartsOf(s, txns) <==> IsPartOf(l, s, txns)
  {
    if txns != [] {
      var init, t := txns[..|txns| - 1], txns[|txns| - 1];
      PartsOfOneAre(l, s, init);
      assert txns == init + [t];
      assert PartOf(l, s, t) <==> IsPart(s, t) && l == PartLine(s, t);
    }
  }

  lemma {:induction false} PartsAreParts(l: Line, subs: seq<Sub>, txns: seq<Txn>)
    ensures l in Parts(subs, txns) <==> IsSomePart(l, subs, txns)
  {
    if subs != [] {
      var init, s := subs[..|subs| - 1], subs[|subs| - 1];
      PartsAreParts(l, init, txns);
      PartsOfOneAre(l, s, txns);
      assert subs == init + [s];
    }
  }

  /** The lines are exactly the unsplit live transactions and the live parts of the others. */
  lemma {:induction false} LinesAre(s: Source, l: Line)
    ensures l in LinesOf(s) <==> IsWhole(l, s.txns, s.subs) || IsSomePart(l, s.subs, s.txns)
  {
    WholesAre(l, s.txns, s.subs);
    PartsAreParts(l, s.subs, s.txns);
  }

  // ---- Line ids are unique

  lemma {:induction false} UnsplitAre(txns: seq<Txn>, subs: seq<Sub>)
    ensures forall l :: l in Unsplit(txns, subs) ==>
              l.subId == "" && !HasLiveSub(subs, l.transactionId) && Mentions(txns, TxnKey, l.transactionId)
    ensures Distinct(txns, TxnKey) ==> Distinct(Unsplit(txns, subs), LineId)
  {
    if txns != [] {
      var init, t := txns[..|txns| - 1], txns[|txns| - 1];
      UnsplitAre(init, subs);
      assert txns[|txns| - 1] == t;
      forall id | Mentions(init, TxnKey, id) ensures Mentions(txns, TxnKey, id) {
        var i :| 0 <= i < |init| && TxnKey(init[i]) == id;
        assert TxnKey(txns[i]) == id;
      }
      assert TxnKey(txns[|txns| - 1]) == t.id;
      if Distinct(txns, TxnKey) {
        forall i, j | 0 <= i < j < |init| ensures TxnKey(init[i]) != TxnKey(init[j]) {
          assert TxnKey(txns[i]) != TxnKey(txns[j]);
        }
        var r := Unsplit(init, subs);
        forall i | 0 <= i < |r| ensures r[i].transactionId != t.id {
          assert r[i] in r;
          var k :| 0 <= k < |init| && TxnKey(init[k]) == r[i].transactionId;
          assert TxnKey(txns[k]) != TxnKey(txns[|txns| - 1]);
        }
      }
    }
  }

  lemma {:induction false} PartsOfAre(s: Sub, txns: seq<Txn>)
    ensures forall l :: l in PartsOf(s, txns) ==> l.subId == s.id && l.transactionId == s.transactionId && !s.deleted
    ensures Distinct(txns, TxnKey) ==> |PartsOf(s, txns)| <= 1
    ensures PartsOf(s, txns) != [] ==> Mentions(txns, TxnKey, s.transactionId)
  {
    if txns != [] {
      var init, t := txns[..|txns| - 1], txns[|txns| - 1];
      PartsOfAre(s, init);
      assert TxnKey(txns[|txns| - 1]) == t.id;
      if Mentions(init, TxnKey, s.transactionId) {
        var k :| 0 <= k < |init| && TxnKey(init[k]) == s.transactionId;
        assert TxnKey(txns[k]) == s.transactionId;
      }
      if Distinct(txns, TxnKey) {
        forall i, j | 0 <= i < j < |init| ensures TxnKey(init[i]) != TxnKey(init[j]) {
          assert TxnKey(txns[i]) != TxnKey(txns[j]);
        }
        if IsPart(s, t) {
          forall k | 0 <= k < |init| ensures TxnKey(init[k]) != s.transactionId {
            assert TxnKey(txns[k]) != TxnKey(txns[|txns| - 1]);
          }
        }
      }
    }
  }

  lemma {:induction false} PartsAre(subs: seq<Sub>, txns: seq<Txn>)
    ensures forall l :: l in Parts(subs, txns) ==> Mentions(subs, SubKey, l.subId) && HasLiveSub(subs, l.transactionId)
    ensures Distinct(subs, SubKey) && Distinct(txns, TxnKey) ==> Distinct(Parts(subs, txns), LineId)
  {
    if subs != [] {
      var init, s := subs[..|subs| - 1], subs[|subs| - 1];
      PartsAre(init, txns);
      PartsOfAre(s, txns);
      var r, last := Parts(init, txns), PartsOf(s, txns);
      forall l | l in Parts(subs, txns) ensures Mentions(subs, SubKey, l.subId) && HasLiveSub(subs, l.transactionId) {
        if l in r {
          var i :| 0 <= i < |init| && SubKey(init[i]) == l.subId;
          assert SubKey(subs[i]) == l.subId;
          var k :| 0 <= k < |init| && init[k].transactionId == l.transactionId && !init[k].deleted;
          assert subs[k] == init[k];
        } else {
          assert SubKey(subs[|subs| - 1]) == l.subId;
        }
      }
      if Distinct(subs, SubKey) && Distinct(txns, TxnKey) {
        forall i, j | 0 <= i < j < |init| ensures SubKey(init[i]) != SubKey(init[j]) {
          assert SubKey(subs[i]) != SubKey(subs[j]);
        }
        forall i, j | 0 <= i < |r| && 0 <= j < |last| ensures r[i].subId != last[j].subId {
          assert r[i] in r && last[j] in last;
          var k :| 0 <= k < |init| && SubKey(init[k]) == r[i].subId;
          assert SubKey(subs[k]) != SubKey(subs[|subs| - 1]);
        }
      }
    }
  }

  /** No two lines share a transaction id and a subtransaction id. */
  lemma {:induction false} LineIdsUnique(s: Source)
    requires Keys(s)
    ensures Distinct(LinesOf(s), LineId)
  {
    UnsplitAre(s.txns, s.subs);
    PartsAre(s.subs, s.txns);
    var a, b := Unsplit(s.txns, s.subs), Parts(s.subs, s.txns);
    forall i, j | 0 <= i < |a| && 0 <= j < |b| ensures LineId(a[i]) != LineId(b[j]) {
      assert a[i] in a && b[j] in b;
    }
  }

  // ---- Every dollar once

  function Total(ls: seq<Line>): int {
    if ls == [] then 0 else Total(ls[..|ls| - 1]) + ls[|ls| - 1].amount
  }

  lemma {:induction false} TotalConcat(a: seq<Line>, b: seq<Line>)
    ensures Total(a + b) == Total(a) + Total(b)
  {
    if b == [] {
      assert a + b == a;
    } else {
      TotalConcat(a, b[..|b| - 1]);
      assert (a + b)[..|a + b| - 1] == a + b[..|b| - 1];
    }
  }

  /** The live parts of one transaction. */
  function PartSum(t: Txn, subs: seq<Sub>): int {
    if subs == [] then 0
    else PartSum(t, subs[..|subs| - 1]) + if IsPart(subs[|subs| - 1], t) then subs[|subs| - 1].amount else 0
  }

  /** What a transaction is worth: nothing if deleted, its live parts when split, its own amount otherwise. */
  function Worth(t: Txn, subs: seq<Sub>): int {
    if t.deleted then 0 else if HasLiveSub(subs, t.id) then PartSum(t, subs) else t.amount
  }

  function TotalWorth(txns: seq<Txn>, subs: seq<Sub>): int {
    if txns == [] then 0 else TotalWorth(txns[..|txns| - 1], subs) + Worth(txns[|txns| - 1], subs)
  }

  function AllParts(txns: seq<Txn>, subs: seq<Sub>): int {
    if txns == [] then 0 else AllParts(txns[..|txns| - 1], subs) + PartSum(txns[|txns| - 1], subs)
  }

  lemma {:induction false} PartsOfSum(s: Sub, txns: seq<Txn>, subs: seq<Sub>)
    ensures AllParts(txns, subs + [s]) == AllParts(txns, subs) + Total(PartsOf(s, txns))
  {
    if txns != [] {
      var t := txns[|txns| - 1];
      PartsOfSum(s, txns[..|txns| - 1], subs);
      assert (subs + [s])[..|subs|] == subs;
      TotalConcat(PartsOf(s, txns[..|txns| - 1]), if IsPart(s, t) then [PartLine(s, t)] else []);
    }
  }

  lemma {:induction false} NoParts(txns: seq<Txn>)
    ensures AllParts(txns, []) == 0
  {
    if txns != [] { NoParts(txns[..|txns| - 1]); }
  }

  lemma {:induction false} PartsTotal(subs: seq<Sub>, txns: seq<Txn>)
    ensures Total(Parts(subs, txns)) == AllParts(txns, subs)
  {
    if subs == [] {
      NoParts(txns);
    } else {
      var init, s := subs[..|subs| - 1], subs[|subs| - 1];
      PartsTotal(init, txns);
      PartsOfSum(s, txns, init);
      TotalConcat(Parts(init, txns), PartsOf(s, txns));
      assert subs == init + [s];
    }
  }

  lemma {:induction false} NoLiveSubNoParts(t: Txn, subs: seq<Sub>)
    requires t.deleted || !HasLiveSub(subs, t.id)
    ensures PartSum(t, subs) == 0
  {
    if subs != [] {
      var init := subs[..|subs| - 1];
      assert forall i :: 0 <= i < |init| ==> init[i] == subs[i];
      NoLiveSubNoParts(t, init);
    }
  }

  lemma {:induction false} WorthSplits(txns: seq<Txn>, subs: seq<Sub>)
    ensures TotalWorth(txns, subs) == Total(Unsplit(txns, subs)) + AllParts(txns, subs)
  {
    if txns != [] {
      var init, t := txns[..|txns| - 1], txns[|txns| - 1];
      WorthSplits(init, subs);
      TotalConcat(Unsplit(init, subs), if !t.deleted && !HasLiveSub(subs, t.id) then [WholeLine(t)] else []);
      if t.deleted || !HasLiveSub(subs, t.id) { NoLiveSubNoParts(t, subs); }
    }
  }

  /** The total of all lines is the sum over live transactions of their amount, or of their live parts when split. */
  lemma {:induction false} EveryDollarOnce(s: Source)
    ensures Total(LinesOf(s)) == TotalWorth(s.txns, s.subs)
  {
    TotalConcat(Unsplit(s.txns, s.subs), Parts(s.subs, s.txns));
    PartsTotal(s.subs, s.txns);
    WorthSplits(s.txns, s.subs);
  }

  // ---- Names

  datatype Named = Named(line: Line, account: Option<Account>, payee: Option<Payee>, category: Option<Category>,
                         group: Option<Group>)

  function Sum(rows: seq<Named>): int {
    if rows == [] then 0 else Sum(rows[..|rows| - 1]) + rows[|rows| - 1].line.amount
  }

  /** One left row joined with its matches: one row per match, or one row with NULLs. A NULL matches nothing. */
  function JoinRows<A, B>(a: A, link: A -> Option<Id>, bs: seq<B>, key: B -> Id, put: (A, Option<B>) -> A): seq<A> {
    var hits := Filter(bs, b => link(a) == Some(key(b)));
    if hits == [] then [put(a, None)] else seq(|hits|, i requires 0 <= i < |hits| => put(a, Some(hits[i])))
  }

  function LeftJoin<A, B>(left: seq<A>, link: A -> Option<Id>, bs: seq<B>, key: B -> Id,
          put: (A, Option<B>) -> A): seq<A> {
    if left == [] then []
    else LeftJoin(left[..|left| - 1], link, bs, key, put) + JoinRows(left[|left| - 1], link, bs, key, put)
  }

  /** The row with this key, if any. */
  function Find<B>(bs: seq<B>, key: B -> Id, id: Option<Id>): (r: Option<B>)
    ensures r.Some? ==> r.value in bs && id == Some(key(r.value))
    ensures r.None? ==> forall b :: b in bs ==> id != Some(key(b))
  {
    if bs == [] then None else if id == Some(key(bs[0])) then Some(bs[0]) else Find(bs[1..], key, id)
  }

  lemma {:induction false} SameKey<B>(hits: seq<B>, key: B -> Id, id: Option<Id>)
    requires forall i :: 0 <= i < |hits| ==> id == Some(key(hits[i]))
    ensures |hits| > 1 ==> key(hits[0]) == key(hits[1])
  {
  }

  lemma {:induction false} OneHit<A, B>(a: A, link: A -> Option<Id>, bs: seq<B>, key: B -> Id, put: (A, Option<B>) -> A)
    requires Distinct(bs, key)
    ensures JoinRows(a, link, bs, key, put) == [put(a, Find(bs, key, link(a)))]
  {
    var p := b => link(a) == Some(key(b));
    var hits, found := Filter(bs, p), Find(bs, key, link(a));
    FilterMembers(bs, p);
    FilterDistinct(bs, p, key);
    SameKey(hits, key, link(a));
    assert hits != [] ==> hits[0] in bs && p(hits[0]);
    if found.Some? {
      assert p(found.value);
      assert found.value in hits;
    }
  }

  lemma {:induction false} OneMoreRow<A>(left: seq<A>, f: A -> A, before: seq<A>, all: seq<A>)
    requires left != [] && |before| == |left| - 1 && all == before + [f(left[|left| - 1])]
    requires forall i :: 0 <= i < |before| ==> before[i] == f(left[i])
    ensures |all| == |left| && forall i :: 0 <= i < |left| ==> all[i] == f(left[i])
  {
  }

  /** A left join on a key never multiplies rows: each keeps its place and gets its one match, or NULL. */
  lemma {:induction false} NoFanOut<A, B>(left: seq<A>, link: A -> Option<Id>, bs: seq<B>, key: B -> Id,
          put: (A, Option<B>) -> A)
    requires Distinct(bs, key)
    ensures |LeftJoin(left, link, bs, key, put)| == |left|
    ensures forall i :: 0 <= i < |left| ==>
              LeftJoin(left, link, bs, key, put)[i] == put(left[i], Find(bs, key, link(left[i])))
  {
    if left != [] {
      var init := left[..|left| - 1];
      NoFanOut(init, link, bs, key, put);
      OneHit(left[|left| - 1], link, bs, key, put);
      OneMoreRow(left, (a: A) => put(a, Find(bs, key, link(a))), LeftJoin(init, link, bs, key, put),
                 LeftJoin(left, link, bs, key, put));
    }
  }

  function Bare(l: Line): Named { Named(l, None, None, None, None) }

  function ByAccount(n: Named): Option<Id> { Some(n.line.accountId) }
  function ByPayee(n: Named): Option<Id> { n.line.payeeId }
  function ByCategory(n: Named): Option<Id> { n.line.categoryId }
  function ByGroup(n: Named): Option<Id> { if n.category.Some? then Some(n.category.value.groupId) else None }

  function PutAccount(n: Named, a: Option<Account>): Named { n.(account := a) }
  function PutPayee(n: Named, p: Option<Payee>): Named { n.(payee := p) }
  function PutCategory(n: Named, c: Option<Category>): Named { n.(category := c) }
  function PutGroup(n: Named, g: Option<Group>): Named { n.(group := g) }

  /** linesJoins: the lines through four left joins. */
  function NamedLines(s: Source): seq<Named> {
    var ls := LinesOf(s);
    var named := seq(|ls|, i requires 0 <= i < |ls| => Bare(ls[i]));
    var j1 := LeftJoin(named, ByAccount, s.accounts, AccountKey, PutAccount);
    var j2 := LeftJoin(j1, ByPayee, s.payees, PayeeKey, PutPayee);
    var j3 := LeftJoin(j2, ByCategory, s.categories, CategoryKey, PutCategory);
    LeftJoin(j3, ByGroup, s.groups, GroupKey, PutGroup)
  }

  function GroupOf(s: Source, c: Option<Category>): Option<Group> {
    Find(s.groups, GroupKey, if c.Some? then Some(c.value.groupId) else None)
  }

  /** The names of a line, looked up one by one. */
  function NameOf(s: Source, l: Line): Named {
    var c := Find(s.categories, CategoryKey, l.categoryId);
    Named(l, Find(s.accounts, AccountKey, Some(l.accountId)), Find(s.payees, PayeeKey, l.payeeId), c, GroupOf(s, c))
  }

  /** The joins keep exactly the lines, in order, each with the names that its ids look up. */
  lemma {:induction false} JoinsNeverFanOut(s: Source)
    requires Keys(s)
    ensures |NamedLines(s)| == |LinesOf(s)|
    ensures forall i :: 0 <= i < |LinesOf(s)| ==> NamedLines(s)[i] == NameOf(s, LinesOf(s)[i])
  {
    var ls := LinesOf(s);
    var named := seq(|ls|, i requires 0 <= i < |ls| => Bare(ls[i]));
    var j1 := LeftJoin(named, ByAccount, s.accounts, AccountKey, PutAccount);
    var j2 := LeftJoin(j1, ByPayee, s.payees, PayeeKey, PutPayee);
    var j3 := LeftJoin(j2, ByCategory, s.categories, CategoryKey, PutCategory);
    NoFanOut(named, ByAccount, s.accounts, AccountKey, PutAccount);
    NoFanOut(j1, ByPayee, s.payees, PayeeKey, PutPayee);
    NoFanOut(j2, ByCategory, s.categories, CategoryKey, PutCategory);
    NoFanOut(j3, ByGroup, s.groups, GroupKey, PutGroup);
  }
}
