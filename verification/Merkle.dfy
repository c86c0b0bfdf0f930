/**
  The Merkle root of a block's transactions, and the blocks built to share one: a list whose last
  transactions are repeated.
 */
module Merkle {

  /** A hash is an injective name: of a transaction, or of two hashes side by side. */
  datatype Hash<T> = Zero | Leaf(tx: T) | Pair(left: Hash<T>, right: Hash<T>)

  /** One level up: adjacent hashes paired, the last with itself where it has no neighbour. */
  function Up<T>(level: seq<Hash<T>>): seq<Hash<T>> {
    if level == [] then []
    else if |level| == 1 then [Pair(level[0], level[0])]
    else [Pair(level[0], level[1])] + Up(level[2..])
  }

  lemma {:induction false} UpLength<T>(level: seq<Hash<T>>)
    ensures |Up(level)| == (|level| + 1) / 2
  {
    if |level| > 1 {
      UpLength(level[2..]);
    }
  }

  function Root<T>(level: seq<Hash<T>>): Hash<T>
    decreases |level|
  {
    if level == [] then Zero
    else if |level| == 1 then level[0]
    else
      UpLength(level);
      Root(Up(level))
  }

  /** Whether some level above one hash holds two equal hashes side by side, where the pairing takes both. */
  ghost predicate Mutated<T>(level: seq<Hash<T>>)
    decreases |level|
  {
    |level| > 1 &&
    (UpLength(level);
     (exists i: nat :: 2 * i + 1 < |level| && level[2 * i] == level[2 * i + 1]) || Mutated(Up(level)))
  }

  /** The hashes `k` levels up. */
  function Level<T>(level: seq<Hash<T>>, k: nat): seq<Hash<T>>
    decreases k
  {
    if k == 0 then level else Level(Up(level), k - 1)
  }

  /** m * 2^k. */
  function Scale(m: nat, k: nat): nat
    decreases k
  {
    if k == 0 then m else 2 * Scale(m, k - 1)
  }

  lemma {:induction false} ScaleOrder(m: nat, n: nat, k: nat)
    requires m < n
    ensures Scale(m, k) < Scale(n, k)
    decreases k
  {
    if k > 0 {
      ScaleOrder(m, n, k - 1);
    }
  }

  /** A list with its last `count` entries repeated behind it. */
  function RepeatLast<T>(level: seq<T>, count: nat): seq<T>
    requires count <= |level|
  {
    level + level[|level| - count..]
  }

  lemma {:induction false} UpConcat<T>(a: seq<Hash<T>>, b: seq<Hash<T>>)
    requires |a| % 2 == 0
    ensures Up(a + b) == Up(a) + Up(b)
  {
    if a == [] {
      assert a + b == b;
    } else {
      assert (a + b)[2..] == a[2..] + b;
      UpConcat(a[2..], b);
    }
  }

  /** A hash alone at the end of a level and the same hash twice are paired alike. */
  lemma UpSingles<T>(x: Hash<T>)
    ensures Up([x]) == Up([x, x]) == [Pair(x, x)]
  {
    assert [x, x][2..] == [];
  }

  /** An odd level pairs its last hash with itself, so repeating that hash changes nothing above. */
  lemma UpOdd<T>(a: seq<Hash<T>>)
    requires |a| % 2 == 1
    ensures Up(RepeatLast(a, 1)) == Up(a)
  {
    hide Up;
    var front, x := a[..|a| - 1], a[|a| - 1];
    assert a == front + [x];
    assert RepeatLast(a, 1) == front + [x, x];
    UpConcat(front, [x]);
    UpConcat(front, [x, x]);
    UpSingles(x);
  }

  /** An even number of repeated hashes is half as many one level up. */
  lemma UpRepeat<T>(a: seq<Hash<T>>, half: nat)
    requires |a| % 2 == 0 && 2 * half <= |a|
    ensures |Up(a)| == |a| / 2
    ensures Up(RepeatLast(a, 2 * half)) == RepeatLast(Up(a), half)
  {
    hide Up;
    var front, last := a[..|a| - 2 * half], a[|a| - 2 * half..];
    UpLength(a);
    UpLength(last);
    assert a == front + last;
    Even(|a|, half);
    UpConcat(front, last);
    UpConcat(a, last);
    assert |Up(last)| == half;
    assert Up(a)[|Up(a)| - half..] == Up(last);
  }

  lemma Even(n: nat, half: nat)
    requires n % 2 == 0 && 2 * half <= n
    ensures (n - 2 * half) % 2 == 0 && (2 * half + 1) / 2 == half
  {
  }

  /** The repeated list against the plain one, `k` levels up: one hash more, the last one again. */
  lemma {:induction false} RepeatedLevel<T>(txs: seq<Hash<T>>, m: nat, k: nat)
    requires |txs| == Scale(m, k) && Scale(1, k) <= Scale(m, k)
    requires m >= 1
    ensures |Level(txs, k)| == m
    ensures Level(RepeatLast(txs, Scale(1, k)), k) == RepeatLast(Level(txs, k), 1)
    decreases k
  {
    hide Up, RepeatLast;
    if k > 0 {
      UpRepeat(txs, Scale(1, k - 1));
      RepeatedLevel(Up(txs), m, k - 1);
    }
  }

  /** A list that fills more than one hash `k` levels up has the root of those hashes. */
  lemma {:induction false} RootOfLevel<T>(txs: seq<Hash<T>>, k: nat)
    requires |txs| > Scale(1, k)
    ensures Root(txs) == Root(Level(txs, k))
    decreases k
  {
    hide Up;
    if k > 0 {
      UpLength(txs);
      if k > 1 {
        ScaleOrder(0, 1, k - 1);
      }
      RootOfLevel(Up(txs), k - 1);
    }
  }

  /** A list of exactly 2^k hashes has come down to its root `k` levels up. */
  lemma {:induction false} RootOfFull<T>(txs: seq<Hash<T>>, k: nat)
    requires |txs| == Scale(1, k)
    ensures Level(txs, k) == [Root(txs)]
    decreases k
  {
    hide Up;
    if k > 0 {
      ScaleOrder(0, 1, k - 1);
      UpLength(txs);
      RootOfFull(Up(txs), k - 1);
    }
  }

  /** Levels only get shorter. */
  lemma {:induction false} LongBelow<T>(txs: seq<Hash<T>>, k: nat)
    ensures |Level(txs, k)| > 1 ==> |txs| > 1
    decreases k
  {
    if k > 0 {
      UpLength(txs);
      LongBelow(Up(txs), k - 1);
    }
  }

  /** Equal neighbours at any level are detected, however far below the root. */
  lemma {:induction false} Detected<T>(txs: seq<Hash<T>>, k: nat, i: nat)
    requires 2 * i + 1 < |Level(txs, k)| && Level(txs, k)[2 * i] == Level(txs, k)[2 * i + 1]
    ensures Mutated(txs)
    decreases k
  {
    LongBelow(txs, k);
    if k > 0 {
      Detected(Up(txs), k - 1, i);
    }
  }

  /** A list of an odd number of hashes, the last of them repeated. */
  lemma OddRoot<T>(a: seq<Hash<T>>)
    requires |a| % 2 == 1
    ensures Root(RepeatLast(a, 1)) == if |a| > 1 then Root(a) else Pair(a[0], a[0])
  {
    UpOdd(a);
    if |a| == 1 {
      UpSingles(a[0]);
      assert RepeatLast(a, 1) == [a[0], a[0]];
    }
  }

  /** The copy is always told from a block: two equal neighbours stand `k` levels up. */
  lemma RepeatedDetected<T>(txs: seq<Hash<T>>, m: nat, k: nat)
    requires |txs| == Scale(m, k) && Scale(1, k) <= Scale(m, k) && m % 2 == 1
    ensures var there := Level(RepeatLast(txs, Scale(1, k)), k); |there| == m + 1 && there[m - 1] == there[m]
    ensures Mutated(RepeatLast(txs, Scale(1, k)))
  {
    hide Up, Mutated, Level;
    RepeatedLevel(txs, m, k);
    Detected(RepeatLast(txs, Scale(1, k)), k, m / 2);
  }

  /** What the copy's root is. */
  lemma RepeatedRoot<T>(txs: seq<Hash<T>>, m: nat, k: nat)
    requires |txs| == Scale(m, k) && Scale(1, k) <= Scale(m, k) && m % 2 == 1
    ensures Root(RepeatLast(txs, Scale(1, k))) == if m > 1 then Root(txs) else Pair(Root(txs), Root(txs))
  {
    hide Up, Root, Level, Scale;
    RepeatedLevel(txs, m, k);
    ScaleOrder(0, 1, k);
    RootOfLevel(RepeatLast(txs, Scale(1, k)), k);
    OddRoot(Level(txs, k));
    if m > 1 {
      ScaleOrder(1, m, k);
      RootOfLevel(txs, k);
    } else {
      RootOfFull(txs, k);
    }
  }

  /**
    A block of m * 2^k transactions, m odd, with its last 2^k repeated: it is always told from a block,
    and it shares the root, and so the hash, exactly when m > 1.
   */
  lemma RepeatedBlock<T>(txs: seq<Hash<T>>, m: nat, k: nat)
    requires |txs| == Scale(m, k) && m % 2 == 1
    ensures Scale(1, k) <= |txs| && Mutated(RepeatLast(txs, Scale(1, k)))
    ensures Root(RepeatLast(txs, Scale(1, k))) == Root(txs) <==> m > 1
  {
    hide Root, Mutated, Scale, RepeatLast;
    if m > 1 {
      ScaleOrder(1, m, k);
    }
    RepeatedDetected(txs, m, k);
    RepeatedRoot(txs, m, k);
    var root := Root(txs);
    assert Pair(root, root).left == root && root < Pair(root, root);
  }
}
