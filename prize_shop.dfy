/** The prize shop: a catalogue of ball-count prizes drawn from random bytes
    when a level is cleared, and the roll that picks one of them. */
module PrizeShops {
  import opened Wrappers

  /** One random byte, as `crypto.getRandomValues` fills a `Uint8Array`. */
  type Byte = b: int | 0 <= b < 256

  /** Bytes drawn for the catalogue when the caller names no other number. */
  const DefaultPrizeCount: nat := 5

  datatype PrizeItem = PrizeItem(name: string, balls: nat)

  datatype PrizeShop = PrizeShop(potentialPrizes: seq<PrizeItem>)

  /** The ball count a byte stands for. */
  function BallCount(b: Byte): (n: nat)
    ensures 1 <= n <= 10
  {
    b % 10 + 1
  }

  function BallCounts(bytes: seq<Byte>): (counts: seq<nat>)
    ensures |counts| == |bytes|
    ensures forall i | 0 <= i < |bytes| :: counts[i] == BallCount(bytes[i])
  {
    seq(|bytes|, i requires 0 <= i < |bytes| => BallCount(bytes[i]))
  }

  // ---------------------------------------------------------------------
  // The default order of `sort` with no comparator: numbers compare as
  // their decimal strings, code unit by code unit.
  // ---------------------------------------------------------------------

  function Digit(d: int): char
    requires 0 <= d < 10
  {
    (d + '0' as int) as char
  }

  /** The decimal string of a whole number, as `String(n)` gives it. */
  function Decimal(n: nat): (s: string)
    ensures |s| >= 1
  {
    if n < 10 then [Digit(n)] else Decimal(n / 10) + [Digit(n % 10)]
  }

  /** `a <= b` on strings: a prefix comes first, otherwise the first
      differing code unit decides. */
  predicate LexLe(a: string, b: string) {
    |a| == 0 || (|b| > 0 && (a[0] < b[0] || (a[0] == b[0] && LexLe(a[1..], b[1..]))))
  }

  lemma {:induction false} LexLeTotal(a: string, b: string)
    ensures LexLe(a, b) || LexLe(b, a)
  {
    if |a| > 0 && |b| > 0 && a[0] == b[0] {
      LexLeTotal(a[1..], b[1..]);
    }
  }

  lemma {:induction false} LexLeTransitive(a: string, b: string, c: string)
    requires LexLe(a, b) && LexLe(b, c)
    ensures LexLe(a, c)
  {
    if |a| > 0 && a[0] == b[0] && b[0] == c[0] {
      LexLeTransitive(a[1..], b[1..], c[1..]);
    }
  }

  /** `a` sorts no later than `b` under the default order. */
  predicate StringOrderLe(a: nat, b: nat) {
    LexLe(Decimal(a), Decimal(b))
  }

  predicate SortedByString(s: seq<nat>) {
    forall i, j | 0 <= i < j < |s| :: StringOrderLe(s[i], s[j])
  }

  /** Inserts `x` before the first element it sorts no later than. */
  function Insert(x: nat, s: seq<nat>): (r: seq<nat>)
    ensures multiset(r) == multiset(s) + multiset{x}
  {
    if s == [] then [x]
    else if StringOrderLe(x, s[0]) then [x] + s
    else
      assert s == [s[0]] + s[1..];
      [s[0]] + Insert(x, s[1..])
  }

  lemma {:induction false} InsertSorted(x: nat, s: seq<nat>)
    requires SortedByString(s)
    ensures SortedByString(Insert(x, s))
  {
    if s == [] {
    } else if StringOrderLe(x, s[0]) {
      var r := Insert(x, s);
      forall i, j | 0 <= i < j < |r|
        ensures StringOrderLe(r[i], r[j])
      {
        if i == 0 && j > 1 {
          LexLeTransitive(Decimal(x), Decimal(s[0]), Decimal(s[j - 1]));
        }
      }
    } else {
      LexLeTotal(Decimal(x), Decimal(s[0]));
      var tail := Insert(x, s[1..]);
      InsertSorted(x, s[1..]);
      var r := [s[0]] + tail;
      forall j | 0 < j < |r|
        ensures StringOrderLe(s[0], r[j])
      {
        assert r[j] in multiset(tail);
        if r[j] != x {
          assert r[j] in multiset(s[1..]);
          var k :| 0 <= k < |s[1..]| && s[1..][k] == r[j];
          assert s[k + 1] == r[j];
        }
      }
    }
  }

  /** `toSorted()` with no comparator. */
  function DefaultSort(s: seq<nat>): (r: seq<nat>)
    ensures multiset(r) == multiset(s)
    ensures SortedByString(r)
  {
    if s == [] then []
    else
      var n := |s| - 1;
      assert s == s[..n] + [s[n]];
      InsertSorted(s[n], DefaultSort(s[..n]));
      Insert(s[n], DefaultSort(s[..n]))
  }

  /** A `Set` built from `s` and spread back out: each value once, in the
      order of its first occurrence. */
  function Dedupe(s: seq<nat>): (r: seq<nat>)
    ensures forall x :: x in r <==> x in s
    ensures forall i, j | 0 <= i < j < |r| :: r[i] != r[j]
    ensures |r| <= |s| && (|s| > 0 ==> |r| > 0)
  {
    if s == [] then []
    else
      var n := |s| - 1;
      var d := Dedupe(s[..n]);
      assert forall x | x in s[..n] :: x in s;
      assert forall x | x in s :: x in s[..n] || x == s[n];
      if s[n] in d then d else d + [s[n]]
  }

  /** Dropping later duplicates keeps a sorted sequence sorted. */
  lemma {:induction false} DedupeSorted(s: seq<nat>)
    requires SortedByString(s)
    ensures SortedByString(Dedupe(s))
  {
    if s != [] {
      var n := |s| - 1;
      DedupeSorted(s[..n]);
      var d := Dedupe(s[..n]);
      forall i | 0 <= i < |d|
        ensures StringOrderLe(d[i], s[n])
      {
        assert d[i] in s[..n];
        var k :| 0 <= k < n && s[..n][k] == d[i];
      }
    }
  }

  // ---------------------------------------------------------------------
  // Prize names
  // ---------------------------------------------------------------------

  /** The name breakpoints in ascending numeric order. */
  const Breakpoints: seq<nat> := [2, 4, 6, 8, 10]

  const PrizeNames: map<nat, string> := map[
    2 := "barely any balls",
    4 := "some balls",
    6 := "a good amount of balls",
    8 := "a lot of balls",
    10 := "a heavy sack filled with balls"]

  /** `keys.find(k => count <= k)`: the first key at least `count`. */
  function FindAtLeast(count: nat, keys: seq<nat>): (r: Option<nat>)
    ensures r.None? <==> forall k | k in keys :: k < count
    ensures r.Some? ==> exists i | 0 <= i < |keys| :: keys[i] == r.value && count <= r.value &&
                         forall j | 0 <= j < i :: keys[j] < count
  {
    if keys == [] then None
    else if count <= keys[0] then
      assert keys[0] in keys;
      Some(keys[0])
    else
      var rest := keys[1..];
      var r := FindAtLeast(count, rest);
      assert keys == [keys[0]] + rest;
      if r.Some? then
        var i :| 0 <= i < |rest| && rest[i] == r.value && count <= r.value &&
                 forall j | 0 <= j < i :: rest[j] < count;
        assert keys[i + 1] == r.value;
        assert keys[i + 1] in keys;
        r
      else
        assert forall k | k in keys :: k == keys[0] || k in rest;
        r
  }

  /** The breakpoint a count is named after: the smallest at least the count,
      or 2 when there is none. */
  function NameKey(count: nat): (key: nat)
    ensures count <= 10 ==> key in PrizeNames && count <= key
    ensures count <= 10 ==> forall k | k in PrizeNames && count <= k :: key <= k
    ensures count > 10 ==> key == 2
  {
    var found := FindAtLeast(count, Breakpoints);
    assert forall k :: k in PrizeNames <==> k in Breakpoints;
    assert 10 in Breakpoints;
    match found
    case Some(k) => k
    case None => 2
  }

  /** The name of a prize of `count` balls. */
  function PrizeName(count: nat): (name: string)
    ensures 1 <= count <= 2 ==> name == "barely any balls"
    ensures 3 <= count <= 4 ==> name == "some balls"
    ensures 5 <= count <= 6 ==> name == "a good amount of balls"
    ensures 7 <= count <= 8 ==> name == "a lot of balls"
    ensures 9 <= count <= 10 ==> name == "a heavy sack filled with balls"
  {
    var key := NameKey(count);
    if key in PrizeNames then PrizeNames[key] else "An unknown amount of"
  }

  // ---------------------------------------------------------------------
  // The shop
  // ---------------------------------------------------------------------

  /** The catalogue's ball counts for `bytes` (one byte per prize asked
      for): in string order, each count once, exactly the counts the bytes
      stand for. */
  function Catalogue(bytes: seq<Byte>): (counts: seq<nat>)
    ensures |counts| <= |bytes| && (|bytes| > 0 ==> |counts| > 0)
    ensures forall i | 0 <= i < |counts| :: 1 <= counts[i] <= 10
    ensures forall i, j | 0 <= i < j < |counts| :: counts[i] != counts[j]
    ensures SortedByString(counts)
    ensures forall x :: x in counts <==> exists k | 0 <= k < |bytes| :: x == BallCount(bytes[k])
  {
    var drawn := BallCounts(bytes);
    var sorted := DefaultSort(drawn);
    assert forall x :: x in sorted <==> x in drawn by {
      forall x ensures x in sorted <==> x in drawn {
        assert x in sorted <==> x in multiset(sorted);
        assert x in drawn <==> x in multiset(drawn);
      }
    }
    assert |sorted| == |drawn| by {
      assert |multiset(sorted)| == |multiset(drawn)|;
    }
    DedupeSorted(sorted);
    var counts := Dedupe(sorted);
    assert forall i | 0 <= i < |counts| :: 1 <= counts[i] <= 10 by {
      forall i | 0 <= i < |counts|
        ensures 1 <= counts[i] <= 10
      {
        assert counts[i] in drawn;
      }
    }
    counts
  }

  /** The shop for `bytes`: one named prize per catalogue count, in order. */
  function NewPrizeShop(bytes: seq<Byte>): (shop: PrizeShop)
    ensures |shop.potentialPrizes| == |Catalogue(bytes)|
    ensures forall i | 0 <= i < |shop.potentialPrizes| ::
      && shop.potentialPrizes[i].balls == Catalogue(bytes)[i]
      && shop.potentialPrizes[i].name == PrizeName(Catalogue(bytes)[i])
  {
    var counts := Catalogue(bytes);
    PrizeShop(seq(|counts|, i requires 0 <= i < |counts| => PrizeItem(PrizeName(counts[i]), counts[i])))
  }

  /** The prize a byte selects: the entry at the byte modulo the catalogue's
      length; an empty catalogue yields nothing. */
  function RollPrize(shop: PrizeShop, b: Byte): (r: Option<PrizeItem>)
    ensures r.None? <==> |shop.potentialPrizes| == 0
    ensures r.Some? ==> r.value in shop.potentialPrizes
    ensures |shop.potentialPrizes| > 0 ==> r == Some(shop.potentialPrizes[b % |shop.potentialPrizes|])
  {
    var p := shop.potentialPrizes;
    if |p| == 0 then None else Some(p[b % |p|])
  }

  /** Where a ball count from 1 to 10 falls in string order: 1, 10, 2, ..., 9. */
  function StringRank(n: nat): nat
    requires 1 <= n <= 10
  {
    if n == 1 then 0 else if n == 10 then 1 else n
  }

  lemma StringOrderOfBallCounts(a: nat, b: nat)
    requires 1 <= a <= 10 && 1 <= b <= 10
    ensures StringOrderLe(a, b) <==> StringRank(a) <= StringRank(b)
  {
    var ten := [Digit(1), Digit(0)];
    assert Decimal(10) == ten;
    assert ten[1..] == [Digit(0)];
    if a < 10 && b < 10 {
      assert Decimal(a) == [Digit(a)] && Decimal(b) == [Digit(b)];
      assert LexLe([Digit(a)], [Digit(b)]) <==> Digit(a) <= Digit(b) by {
        assert [Digit(a)][1..] == [];
      }
    } else if a < 10 {
      assert Decimal(a) == [Digit(a)];
      assert LexLe([Digit(a)], ten) <==> Digit(a) <= Digit(1) by {
        assert [Digit(a)][1..] == [];
      }
    } else if b < 10 {
      assert Decimal(b) == [Digit(b)];
      assert LexLe(ten, [Digit(b)]) <==> Digit(1) < Digit(b) by {
        assert [Digit(b)][1..] == [];
        assert !LexLe([Digit(0)], []);
      }
    }
  }

  /** The catalogue lists its counts strictly in the order 1, 10, 2, ..., 9,
      so 10 comes before every count from 2 to 9. */
  lemma CatalogueInStringOrder(bytes: seq<Byte>)
    ensures var c := Catalogue(bytes);
      forall i, j | 0 <= i < j < |c| :: StringRank(c[i]) < StringRank(c[j])
  {
    var c := Catalogue(bytes);
    forall i, j | 0 <= i < j < |c|
      ensures StringRank(c[i]) < StringRank(c[j])
    {
      StringOrderOfBallCounts(c[i], c[j]);
    }
  }

  /** The rolled prize is one of the ball counts the catalogue bytes drew,
      under its tier name; only a shop built from no bytes rolls nothing. */
  lemma RolledPrizeWasDrawn(bytes: seq<Byte>, b: Byte)
    ensures var r := RollPrize(NewPrizeShop(bytes), b);
      && (r.Some? <==> |bytes| > 0)
      && (r.Some? ==> (exists k | 0 <= k < |bytes| :: r.value.balls == BallCount(bytes[k]))
                      && r.value.name == PrizeName(r.value.balls))
  {
    var p := NewPrizeShop(bytes).potentialPrizes;
    var r := RollPrize(NewPrizeShop(bytes), b);
    if r.Some? {
      var i :| 0 <= i < |p| && p[i] == r.value;
      assert Catalogue(bytes)[i] in Catalogue(bytes);
    }
  }

  /** An index into a sequence strictly increasing in string rank is at most
      the rank found there. */
  lemma {:induction false} RankAtLeastIndex(c: seq<nat>, i: nat)
    requires forall k | 0 <= k < |c| :: 1 <= c[k] <= 10
    requires forall k, j | 0 <= k < j < |c| :: StringRank(c[k]) < StringRank(c[j])
    requires i < |c|
    ensures StringRank(c[i]) >= i
  {
    if i > 0 {
      RankAtLeastIndex(c, i - 1);
    }
  }

  /** Ten ball counts exist, so the catalogue never lists more than ten prizes. */
  lemma CatalogueHoldsAtMostTen(bytes: seq<Byte>)
    ensures |Catalogue(bytes)| <= 10
  {
    var c := Catalogue(bytes);
    if |c| > 10 {
      CatalogueInStringOrder(bytes);
      RankAtLeastIndex(c, 10);
      assert false;
    }
  }

  /** In a shop of at most ten prizes, the byte equal to an index rolls the
      prize at that index. */
  lemma RollByIndex(shop: PrizeShop)
    requires |shop.potentialPrizes| <= 10
    ensures forall i | 0 <= i < |shop.potentialPrizes| ::
      i < 256 && RollPrize(shop, i) == Some(shop.potentialPrizes[i])
  {
    var n := |shop.potentialPrizes|;
    forall i | 0 <= i < n
      ensures i < 256 && RollPrize(shop, i) == Some(shop.potentialPrizes[i])
    {
      assert i % n == i;
    }
  }

  /** Every prize in a shop can be won: the byte equal to its index rolls it. */
  lemma EveryPrizeCanBeWon(bytes: seq<Byte>)
    ensures var p := NewPrizeShop(bytes).potentialPrizes;
      forall i | 0 <= i < |p| :: i < 256 && RollPrize(NewPrizeShop(bytes), i) == Some(p[i])
  {
    CatalogueHoldsAtMostTen(bytes);
    RollByIndex(NewPrizeShop(bytes));
  }

  /** A shop built with the default number of draws offers one to five prizes. */
  lemma DefaultShopSize(bytes: seq<Byte>)
    requires |bytes| == DefaultPrizeCount
    ensures 1 <= |NewPrizeShop(bytes).potentialPrizes| <= DefaultPrizeCount
  {
  }
}
