/** `get_utxo`: sorting the cache, filtering it, and which coin the answer is. */
module CoinSelection {
  import opened Wrappers
  import opened Transactions
  import opened Coins

  const COINBASE_MATURITY := 100

  /** `_is_mature`: spendable in the block after `height`. */
  predicate IsMature(u: Utxo, height: int) {
    !u.coinbase || height + 1 - u.height >= COINBASE_MATURITY
  }

  /** The filters a caller of `get_utxo` names. */
  datatype Query = Query(txid: Option<Tx>, vout: Option<int>, confirmedOnly: bool)

  predicate Matches(u: Utxo, q: Query, height: int) {
    && (if q.txid.Some? then u.outpoint.tx == q.txid.value else IsMature(u, height))
    && (q.vout.Some? ==> u.outpoint.vout == q.vout.value)
    && (q.confirmedOnly ==> u.Confirmed())
  }

  /** The sort key: by value, then by descending height. */
  predicate AtMost(u: Utxo, v: Utxo) {
    u.value < v.value || (u.value == v.value && u.height >= v.height)
  }

  function Insert(u: Utxo, sorted: seq<Utxo>): seq<Utxo> {
    if sorted == [] || AtMost(u, sorted[0]) then [u] + sorted else [sorted[0]] + Insert(u, sorted[1..])
  }

  /** The stable sort of the cache. */
  function SortCoins(utxos: seq<Utxo>): seq<Utxo> {
    if utxos == [] then [] else Insert(utxos[0], SortCoins(utxos[1..]))
  }

  ghost predicate Ascending(s: seq<Utxo>) {
    forall i, j :: 0 <= i < j < |s| ==> AtMost(s[i], s[j])
  }

  lemma {:induction false} InsertSorts(u: Utxo, s: seq<Utxo>)
    requires Ascending(s)
    ensures Ascending(Insert(u, s)) && multiset(Insert(u, s)) == multiset{u} + multiset(s)
  {
    if s != [] && !AtMost(u, s[0]) {
      InsertSorts(u, s[1..]);
      var rest := Insert(u, s[1..]);
      assert s == [s[0]] + s[1..];
      forall j | 0 <= j < |rest| ensures AtMost(s[0], rest[j]) {
        assert rest[j] in multiset(rest);
        assert rest[j] == u || rest[j] in s[1..];
      }
    }
  }

  lemma {:induction false} SortCoinsSorts(utxos: seq<Utxo>)
    ensures Ascending(SortCoins(utxos)) && multiset(SortCoins(utxos)) == multiset(utxos)
  {
    if utxos != [] {
      SortCoinsSorts(utxos[1..]);
      InsertSorts(utxos[0], SortCoins(utxos[1..]));
      assert utxos == [utxos[0]] + utxos[1..];
    }
  }

  /** The coins of a list every filter keeps, in its order. */
  function Keep(utxos: seq<Utxo>, q: Query, height: int): seq<Utxo> {
    if utxos == [] then []
    else (if Matches(utxos[0], q, height) then [utxos[0]] else []) + Keep(utxos[1..], q, height)
  }

  lemma {:induction false} KeepMembers(utxos: seq<Utxo>, q: Query, height: int)
    ensures forall u :: u in Keep(utxos, q, height) <==> u in utxos && Matches(u, q, height)
  {
    if utxos != [] {
      KeepMembers(utxos[1..], q, height);
    }
  }

  function Reversed(s: seq<Utxo>): seq<Utxo> {
    seq(|s|, i requires 0 <= i < |s| => s[|s| - 1 - i])
  }

  /** The first place a coin stands at. */
  function IndexOf(s: seq<Utxo>, u: Utxo): (i: nat)
    requires u in s
    ensures i < |s| && s[i] == u && u !in s[..i]
  {
    if s[0] == u then 0 else
      var i := IndexOf(s[1..], u);
      assert s[..1 + i] == [s[0]] + s[1..][..i];
      1 + i
  }

  /** Whether `u` is at least as good an answer as `v`: the largest lowest coin, or with a txid the smallest highest. */
  predicate Preferred(u: Utxo, v: Utxo, q: Query) {
    if q.txid.Some? then AtMost(u, v) else AtMost(v, u)
  }

  /** A list with one entry popped. */
  function Popped(s: seq<Utxo>, i: nat): seq<Utxo>
    requires i < |s|
  {
    s[..i] + s[i + 1..]
  }

  lemma RemoveAt(s: seq<Utxo>, i: nat)
    requires i < |s|
    ensures multiset(Popped(s, i)) == multiset(s) - multiset{s[i]}
    ensures Ascending(s) ==> Ascending(Popped(s, i))
  {
    assert s == s[..i] + [s[i]] + s[i + 1..];
  }

  /** The order the candidates are walked in. */
  function Walk(utxos: seq<Utxo>, q: Query): seq<Utxo> {
    if q.txid.Some? then SortCoins(utxos) else Reversed(SortCoins(utxos))
  }

  lemma WalkInOrder(utxos: seq<Utxo>, q: Query)
    ensures InOrder(Walk(utxos, q), q)
  {
    SortCoinsSorts(utxos);
  }

  lemma SortMembers(utxos: seq<Utxo>, u: Utxo)
    ensures u in SortCoins(utxos) <==> u in utxos
  {
    SortCoinsSorts(utxos);
    assert u in multiset(SortCoins(utxos)) <==> u in multiset(utxos);
  }

  lemma WalkMembers(utxos: seq<Utxo>, q: Query, u: Utxo)
    ensures u in Walk(utxos, q) <==> u in utxos
  {
    var sorted := SortCoins(utxos);
    SortMembers(utxos, u);
    if u in sorted {
      var i :| 0 <= i < |sorted| && sorted[i] == u;
      assert Reversed(sorted)[|sorted| - 1 - i] == u;
    }
  }

  /** The coins every filter keeps, the preferred first. */
  function Candidates(utxos: seq<Utxo>, height: int, q: Query): seq<Utxo> {
    Keep(Walk(utxos, q), q, height)
  }

  lemma CandidateMembers(utxos: seq<Utxo>, height: int, q: Query, u: Utxo)
    ensures u in Candidates(utxos, height, q) <==> u in utxos && Matches(u, q, height)
  {
    KeepMembers(Walk(utxos, q), q, height);
    WalkMembers(utxos, q, u);
  }

  lemma FirstCandidate(utxos: seq<Utxo>, height: int, q: Query)
    requires Candidates(utxos, height, q) != []
    ensures IsChoice(Candidates(utxos, height, q)[0], utxos, height, q)
  {
    var first := Candidates(utxos, height, q)[0];
    CandidateMembers(utxos, height, q, first);
    WalkInOrder(utxos, q);
    FirstKept(Walk(utxos, q), q, height);
    OfferedIff(first, q, height);
    forall v | v in utxos && Offered(v, q, height) ensures Preferred(first, v, q) {
      WalkMembers(utxos, q, v);
      OfferedIff(v, q, height);
    }
  }

  /** What one call answers and leaves cached. */
  datatype Choice = Choice(coin: Option<Utxo>, cache: seq<Utxo>)

  function GetUtxo(utxos: seq<Utxo>, height: int, q: Query, markAsSpent: bool): Choice {
    var sorted, candidates := SortCoins(utxos), Candidates(utxos, height, q);
    if candidates == [] then Choice(None, sorted)
    else
      CandidateMembers(utxos, height, q, candidates[0]);
      SortMembers(utxos, candidates[0]);
      var i := IndexOf(sorted, candidates[0]);
      Choice(Some(sorted[i]), if markAsSpent then Popped(sorted, i) else sorted)
  }

  /**
    What a caller asks of a coin: the transaction and the output named, where they are; a block holding it, where that
    is asked; and without a transaction, that the next block may spend it.
   */
  ghost predicate Offered(u: Utxo, q: Query, height: int) {
    && (q.txid.Some? ==> u.outpoint.tx == q.txid.value)
    && (q.txid.None? && u.coinbase ==> u.height + 100 <= height + 1)
    && (q.vout.Some? ==> u.outpoint.vout == q.vout.value)
    && (q.confirmedOnly ==> u.height > 0)
  }

  lemma OfferedIff(u: Utxo, q: Query, height: int)
    ensures Matches(u, q, height) <==> Offered(u, q, height)
  {
  }

  /**
    A cached coin that is offered, and of all such: without a transaction the greatest value, and of those the least
    height; with one the least value, and of those the greatest height.
   */
  ghost predicate IsChoice(u: Utxo, utxos: seq<Utxo>, height: int, q: Query) {
    && u in utxos && Offered(u, q, height)
    && forall v :: v in utxos && Offered(v, q, height) ==>
         if q.txid.None? then u.value > v.value || (u.value == v.value && u.height <= v.height)
         else u.value < v.value || (u.value == v.value && u.height >= v.height)
  }

  /** The coin answered: the choice where some cached coin passes the filters, and none exactly where none does. */
  lemma GetUtxoCoin(utxos: seq<Utxo>, height: int, q: Query, markAsSpent: bool)
    ensures
      var r := GetUtxo(utxos, height, q, markAsSpent);
      && (r.coin.None? <==> forall u :: u in utxos ==> !Offered(u, q, height))
      && (r.coin.Some? ==> IsChoice(r.coin.value, utxos, height, q))
  {
    var candidates := Candidates(utxos, height, q);
    if candidates != [] {
      FirstCandidate(utxos, height, q);
      SortMembers(utxos, candidates[0]);
    } else {
      forall u | u in utxos ensures !Offered(u, q, height) {
        CandidateMembers(utxos, height, q, u);
        OfferedIff(u, q, height);
      }
    }
  }

  /** The cache left behind: sorted, and the same coins but the one answered where it is marked spent. */
  lemma GetUtxoCache(utxos: seq<Utxo>, height: int, q: Query, markAsSpent: bool)
    ensures
      var r := GetUtxo(utxos, height, q, markAsSpent);
      && multiset(r.cache) ==
           multiset(utxos) - (if r.coin.Some? && markAsSpent then multiset{r.coin.value} else multiset{})
      && Ascending(r.cache)
  {
    var sorted, candidates := SortCoins(utxos), Candidates(utxos, height, q);
    SortCoinsSorts(utxos);
    if candidates != [] {
      CandidateMembers(utxos, height, q, candidates[0]);
      SortMembers(utxos, candidates[0]);
      RemoveAt(sorted, IndexOf(sorted, candidates[0]));
    }
  }

  ghost predicate InOrder(s: seq<Utxo>, q: Query) {
    forall i, j :: 0 <= i < j < |s| ==> Preferred(s[i], s[j], q)
  }

  lemma {:induction false} FirstKept(s: seq<Utxo>, q: Query, height: int)
    requires InOrder(s, q) && Keep(s, q, height) != []
    ensures forall v :: v in s && Matches(v, q, height) ==> Preferred(Keep(s, q, height)[0], v, q)
  {
    if !Matches(s[0], q, height) {
      FirstKept(s[1..], q, height);
    }
  }

  // ---- `get_utxos`

  /** What the filters of `get_utxos` keep a coin for. */
  predicate PassesAll(u: Utxo, height: int, includeImmature: bool, confirmedOnly: bool) {
    (includeImmature || IsMature(u, height)) && (!confirmedOnly || u.Confirmed())
  }

  /** The coins the filters of `get_utxos` keep. */
  function KeptCoins(utxos: seq<Utxo>, height: int, includeImmature: bool, confirmedOnly: bool): seq<Utxo> {
    if utxos == [] then []
    else
      (if PassesAll(utxos[0], height, includeImmature, confirmedOnly) then [utxos[0]] else [])
      + KeptCoins(utxos[1..], height, includeImmature, confirmedOnly)
  }

  ghost predicate Increasing(places: seq<nat>) {
    forall i, j :: 0 <= i < j < |places| ==> places[i] < places[j]
  }

  /** A list taken from `utxos` at `places`, in order. */
  ghost predicate TakenAt(kept: seq<Utxo>, utxos: seq<Utxo>, places: seq<nat>) {
    && |kept| == |places| && Increasing(places)
    && forall k :: 0 <= k < |places| ==> places[k] < |utxos| && kept[k] == utxos[places[k]]
  }

  /** The places of the coins that pass the filters, and no others. */
  ghost predicate PlacesOfPassing(
      utxos: seq<Utxo>, places: seq<nat>, height: int, includeImmature: bool, confirmedOnly: bool)
  {
    forall i: nat :: i < |utxos| ==>
      (i in places <==>
       && (includeImmature || (utxos[i].coinbase ==> utxos[i].height + 100 <= height + 1))
       && (confirmedOnly ==> utxos[i].height > 0))
  }

  function Shifted(places: seq<nat>): seq<nat> {
    seq(|places|, k requires 0 <= k < |places| => places[k] + 1)
  }

  lemma PlacesShift(
      utxos: seq<Utxo>, first: bool, rest: seq<nat>, height: int, includeImmature: bool, confirmedOnly: bool)
    requires utxos != [] && first == PassesAll(utxos[0], height, includeImmature, confirmedOnly)
    requires PlacesOfPassing(utxos[1..], rest, height, includeImmature, confirmedOnly)
    ensures PlacesOfPassing(utxos, (if first then [0] else []) + Shifted(rest), height, includeImmature, confirmedOnly)
  {
    var places := (if first then [0] else []) + Shifted(rest);
    forall i: nat | i < |utxos| ensures i in places <==> PassesAll(utxos[i], height, includeImmature, confirmedOnly) {
      if i > 0 {
        assert utxos[1..][i - 1] == utxos[i];
        if i - 1 in rest {
          var k :| 0 <= k < |rest| && rest[k] == i - 1;
          assert Shifted(rest)[k] == i;
        }
      } else {
        assert 0 !in Shifted(rest);
      }
    }
  }

  lemma TakenShift(utxos: seq<Utxo>, first: bool, kept: seq<Utxo>, rest: seq<nat>)
    requires utxos != [] && TakenAt(kept, utxos[1..], rest)
    ensures TakenAt((if first then [utxos[0]] else []) + kept, utxos, (if first then [0] else []) + Shifted(rest))
  {
    var all, places := (if first then [utxos[0]] else []) + kept, (if first then [0] else []) + Shifted(rest);
    var n := if first then 1 else 0;
    forall k | 0 <= k < |places| ensures places[k] < |utxos| && all[k] == utxos[places[k]] {
      if k >= n {
        assert places[k] == rest[k - n] + 1 && all[k] == kept[k - n] == utxos[1..][rest[k - n]];
      }
    }
  }

  /** Exactly the coins that pass are kept, each where it stood and so in the cache's order. */
  lemma {:induction false} KeptExactly(utxos: seq<Utxo>, height: int, includeImmature: bool, confirmedOnly: bool)
    returns (places: seq<nat>)
    ensures TakenAt(KeptCoins(utxos, height, includeImmature, confirmedOnly), utxos, places)
    ensures PlacesOfPassing(utxos, places, height, includeImmature, confirmedOnly)
  {
    hide TakenAt, PlacesOfPassing, PassesAll, Shifted;
    if utxos == [] {
      places := [];
      assert TakenAt([], [], []) && PlacesOfPassing([], [], height, includeImmature, confirmedOnly) by {
        NoPlaces(height, includeImmature, confirmedOnly);
      }
    } else {
      var first := PassesAll(utxos[0], height, includeImmature, confirmedOnly);
      var rest := KeptExactly(utxos[1..], height, includeImmature, confirmedOnly);
      places := (if first then [0] else []) + Shifted(rest);
      PlacesShift(utxos, first, rest, height, includeImmature, confirmedOnly);
      TakenShift(utxos, first, KeptCoins(utxos[1..], height, includeImmature, confirmedOnly), rest);
    }
  }

  lemma NoPlaces(height: int, includeImmature: bool, confirmedOnly: bool)
    ensures TakenAt([], [], []) && PlacesOfPassing([], [], height, includeImmature, confirmedOnly)
  {
  }
}
