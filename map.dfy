/** The fixed-size u64 -> u64 hash map of map.c: open addressing with linear
    probing and no deletion. */
module HashMap {
  import opened Common

  /** The `u64 *value` out-parameter of `map_index`. */
  class Cell {
    var value: u64

    constructor ()
      ensures value == 0
    {
      value := 0;
    }
  }

  /** The number of probes `map_insert` and `map_index` make from home slot
      `h` before they reach slot `i`, in a table of `n` slots. */
  function Dist(n: nat, h: nat, i: nat): (d: nat)
    requires h < n && i < n
    ensures d < n
    ensures d == 0 <==> h == i
  {
    if h <= i then i - h else i + n - h
  }

  /** `map_hash`: the home slot of a key. */
  function Home(key: u64, n: nat): (h: nat)
    requires n > 0
    ensures h < n
  {
    key % n
  }

  /** Every slot on the probe path from `h` up to and including `j` is taken. */
  ghost predicate PathTaken(taken: seq<bool>, h: nat, j: nat)
    requires h < |taken| && j < |taken|
  {
    forall i :: 0 <= i < |taken| && Dist(|taken|, h, i) <= Dist(|taken|, h, j) ==> taken[i]
  }

  /** The linear-probing invariant: a key sits at the end of a run of taken
      slots that starts at its home slot. */
  ghost predicate Probing(keys: seq<u64>, taken: seq<bool>)
    requires |keys| == |taken|
  {
    forall j {:trigger PathTaken(taken, Home(keys[j], |taken|), j)} ::
      0 <= j < |taken| && taken[j] ==> PathTaken(taken, Home(keys[j], |taken|), j)
  }

  /** Each key occupies at most one slot. */
  ghost predicate Unique(keys: seq<u64>, taken: seq<bool>)
    requires |keys| == |taken|
  {
    forall i, j :: 0 <= i < j < |taken| && taken[i] && taken[j] ==> keys[i] != keys[j]
  }

  ghost predicate Present(keys: seq<u64>, taken: seq<bool>, key: u64)
    requires |keys| == |taken|
  {
    exists j :: 0 <= j < |taken| && taken[j] && keys[j] == key
  }

  /** The slots a probe for `key` from `h` has passed after `counter` steps
      are taken and hold other keys. */
  ghost predicate Passed(keys: seq<u64>, taken: seq<bool>, key: u64, h: nat, counter: nat)
    requires |keys| == |taken| && h < |taken|
  {
    forall i :: 0 <= i < |taken| && (counter >= |taken| || Dist(|taken|, h, i) < counter) ==>
      taken[i] && keys[i] != key
  }

  lemma NextSlot(n: nat, h: nat, p: nat, counter: nat)
    requires h < n && p < n && counter < n
    requires Dist(n, h, p) == counter
    ensures counter + 1 < n ==> Dist(n, h, (p + 1) % n) == counter + 1
    ensures counter + 1 == n ==> (p + 1) % n == h
  {
    WrapStep(p, n);
  }

  /** `(p + 1) % n` steps to the next slot, wrapping from the last to 0. */
  lemma WrapStep(p: nat, n: nat)
    requires p < n
    ensures (p + 1) % n == if p + 1 < n then p + 1 else 0
  {
    var a := p + 1;
    var q, r := a / n, a % n;
    assert a == q * n + r && 0 <= r < n;
    if q >= 2 {
      assert q * n >= 2 * n by { MulAtLeast(q, 2, n); }
    } else if q == 1 {
      assert q * n == n;
    }
  }

  lemma MulAtLeast(q: int, k: int, n: nat)
    requires q >= k >= 0
    ensures q * n >= k * n
  {
  }

  /** A probe that meets a free slot before meeting the key proves the key
      absent. */
  lemma {:induction false} AbsentAtGap(keys: seq<u64>, taken: seq<bool>, key: u64, p: nat, counter: nat)
    requires |keys| == |taken| > 0 && Probing(keys, taken)
    requires p < |taken| && counter < |taken|
    requires Dist(|taken|, Home(key, |taken|), p) == counter
    requires !taken[p] && Passed(keys, taken, key, Home(key, |taken|), counter)
    ensures !Present(keys, taken, key)
  {
    forall j | 0 <= j < |taken| && taken[j] ensures keys[j] != key {
      assert PathTaken(taken, Home(keys[j], |taken|), j);
    }
  }

  /** One more probe step past a taken slot holding another key. */
  lemma PassedStep(keys: seq<u64>, taken: seq<bool>, key: u64, h: nat, p: nat, counter: nat)
    requires |keys| == |taken| && h < |taken| && p < |taken| && counter < |taken|
    requires Dist(|taken|, h, p) == counter && taken[p] && keys[p] != key
    requires Passed(keys, taken, key, h, counter)
    ensures Passed(keys, taken, key, h, counter + 1)
  {
    forall i | 0 <= i < |taken| && (counter + 1 >= |taken| || Dist(|taken|, h, i) < counter + 1)
      ensures taken[i] && keys[i] != key
    {
      if Dist(|taken|, h, i) == counter {
        assert i == p;
      }
    }
  }

  /** Filling the free slot where a probe for a new key stopped keeps both
      invariants. */
  lemma {:induction false} FillKeepsInvariants(keys: seq<u64>, taken: seq<bool>, key: u64, p: nat, counter: nat)
    requires |keys| == |taken| > 0 && Probing(keys, taken) && Unique(keys, taken)
    requires p < |taken| && counter < |taken|
    requires Dist(|taken|, Home(key, |taken|), p) == counter
    requires !taken[p] && Passed(keys, taken, key, Home(key, |taken|), counter)
    ensures Probing(keys[p := key], taken[p := true])
    ensures Unique(keys[p := key], taken[p := true])
  {
    var n, h := |taken|, Home(key, |taken|);
    var keys', taken' := keys[p := key], taken[p := true];
    AbsentAtGap(keys, taken, key, p, counter);
    forall j | 0 <= j < n && taken'[j] ensures PathTaken(taken', Home(keys'[j], n), j) {
      if j == p {
        forall i | 0 <= i < n && Dist(n, h, i) <= Dist(n, h, j) ensures taken'[i] {
          if Dist(n, h, i) == counter {
            assert i == p;
          }
        }
      } else {
        assert PathTaken(taken, Home(keys[j], n), j);
      }
    }
    forall i, j | 0 <= i < j < n && taken'[i] && taken'[j] ensures keys'[i] != keys'[j] {
      if i != p && j != p {
        assert keys'[i] == keys[i] && keys'[j] == keys[j];
      }
    }
  }

  /** `Map`: three parallel arrays of `size` slots. */
  class Map {
    var keys: array<u64>
    var values: array<u64>
    var taken: array<bool>
    var size: nat

    ghost predicate Valid()
      reads this, keys, values, taken
    {
      && keys.Length == size && values.Length == size && taken.Length == size
      && keys != values
      && size <= INT_MAX
      && Probing(keys[..], taken[..])
      && Unique(keys[..], taken[..])
    }

    /** `make_map(size)`: `size` slots, none taken. */
    constructor (size: nat)
      requires size <= INT_MAX
      ensures Valid() && this.size == size
      ensures fresh(keys) && fresh(values) && fresh(taken)
      ensures forall j :: 0 <= j < size ==> !taken[j]
    {
      keys := new u64[size];
      values := new u64[size];
      taken := new bool[size](_ => false);
      this.size := size;
    }

    /** `map_hash(map, key)`. */
    function Hash(key: u64): (h: nat)
      reads this
      requires size > 0
      ensures h < size && h == Home(key, size)
    {
      key % size
    }

    ghost predicate Has(key: u64)
      reads this, keys, values, taken
      requires Valid()
    {
      Present(keys[..], taken[..], key)
    }

    ghost predicate Full()
      reads this, keys, values, taken
      requires Valid()
    {
      forall j :: 0 <= j < size ==> taken[j]
    }

    /** `map_insert`. It fails (the bound assertion of map.c:24) exactly when
        the key is new and every slot is taken; otherwise it writes one slot:
        the key's own slot if the key is present, else the first free slot
        on the key's probe path. */
    method Insert(key: u64, value: u64) returns (ok: bool, ghost p: nat)
      requires Valid() && size > 0
      modifies keys, values, taken
      ensures Valid()
      ensures ok <==> old(Has(key)) || !old(Full())
      ensures !ok ==> unchanged(keys, values, taken)
      ensures ok ==> p < size && keys[..] == old(keys[..])[p := key]
      ensures ok ==> values[..] == old(values[..])[p := value] && taken[..] == old(taken[..])[p := true]
      ensures ok && old(taken[p]) ==> old(keys[p]) == key
    {
      ghost var ks, ts := keys[..], taken[..];
      var h := Hash(key);
      var position: nat := h;
      var counter: nat := 0;
      while taken[position]
        invariant position < size && counter <= size
        invariant counter < size ==> Dist(size, h, position) == counter
        invariant counter == size ==> position == h
        invariant Passed(ks, ts, key, h, counter)
        invariant unchanged(keys, values, taken)
        decreases size - counter
      {
        if keys[position] == key {
          break;
        }
        if !(counter < size) {
          assert Full();
          assert !Has(key);
          return false, 0;
        }
        NextSlot(size, h, position, counter);
        PassedStep(ks, ts, key, h, position, counter);
        counter := counter + 1;
        position := (position + 1) % size;
      }
      assert keys[..] == ks && taken[..] == ts;
      if !taken[position] {
        assert counter < size;
        AbsentAtGap(ks, ts, key, position, counter);
        FillKeepsInvariants(ks, ts, key, position, counter);
      } else {
        // the key is already in this slot: only its value changes
        assert ks[position := key] == ks && ts[position := true] == ts;
      }
      keys[position] := key;
      values[position] := value;
      taken[position] := true;
      assert keys[..] == ks[position := key];
      assert taken[..] == ts[position := true];
      ok, p := true, position;
    }

    /** `map_index`. It reports whether the key is present and, when it is
        and `dst` is not null, stores the key's value through `dst`; when it
        is absent nothing is written. */
    method Index(key: u64, dst: Cell?) returns (found: bool)
      requires Valid() && size > 0
      modifies dst
      ensures found <==> Has(key)
      ensures found && dst != null ==>
        exists j :: 0 <= j < size && taken[j] && keys[j] == key && dst.value == values[j]
      ensures !found && dst != null ==> unchanged(dst)
    {
      var h := Hash(key);
      var position: nat := h;
      var counter: nat := 0;
      while true
        invariant position < size && counter <= size
        invariant counter < size ==> Dist(size, h, position) == counter
        invariant counter == size ==> position == h
        invariant Passed(keys[..], taken[..], key, h, counter)
        invariant dst != null ==> unchanged(dst)
        decreases size - counter
      {
        if !taken[position] {
          assert counter < size;
          AbsentAtGap(keys[..], taken[..], key, position, counter);
          return false;
        } else if keys[position] == key {
          break;
        }
        if counter >= size {
          return false;
        }
        NextSlot(size, h, position, counter);
        PassedStep(keys[..], taken[..], key, h, position, counter);
        counter := counter + 1;
        position := (position + 1) % size;
      }
      assert keys[..][position] == key;
      if dst != null {
        dst.value := values[position];
      }
      return true;
    }

    /** `map_iter(iter)`: the first taken slot after `iter`, or -1. The test
        compares the int `iter + 1` with the size_t `size`, so a negative
        `iter + 1` is converted modulo 2^64 first and ends the iteration. */
    method Iter(iter: int) returns (r: int)
      requires Valid()
      requires -INT_MAX - 1 <= iter < INT_MAX
      ensures iter < -1 ==> r == -1
      ensures r == -1 && iter >= -1 ==> forall j :: iter < j < size ==> !taken[j]
      ensures r != -1 ==> iter < r < size && taken[r]
      ensures r != -1 ==> forall j :: iter < j < r ==> !taken[j]
    {
      var it := iter;
      while true
        invariant iter <= it < INT_MAX
        invariant iter < -1 ==> it == iter
        invariant forall j :: iter < j <= it && j < size ==> !taken[j]
        decreases size - it
      {
        assert (it + 1) % U64_LIMIT == if it + 1 < 0 then it + 1 + U64_LIMIT else it + 1;
        if (it + 1) % U64_LIMIT >= size {
          return -1;
        }
        it := it + 1;
        if taken[it] {
          return it;
        }
      }
    }
  }

  /** `map_test` (map.c:58-69): 15 and 527 share home slot 15 of 512, yet
      each lookup yields its own value. */
  method MapTest() returns (v1: u64, v2: u64)
    ensures v1 == 0xDEAD && v2 == 0xBEEF
  {
    var m, p1, p2 := TestInserts();
    var u1 := new Cell();
    var f1 := m.Index(15, u1);
    ghost var j1 :| 0 <= j1 < m.size && m.taken[j1] && m.keys[j1] == 15 && u1.value == m.values[j1];
    assert m.taken[..][j1] && m.keys[..][j1] == 15;
    assert j1 == p1;
    assert u1.value == 0xDEAD;
    var u2 := new Cell();
    var f2 := m.Index(527, u2);
    ghost var j2 :| 0 <= j2 < m.size && m.taken[j2] && m.keys[j2] == 527 && u2.value == m.values[j2];
    assert m.taken[..][j2] && m.keys[..][j2] == 527;
    assert j2 == p2;
    assert u2.value == 0xBEEF;
    v1, v2 := u1.value, u2.value;
  }

  /** The two `map_insert`s of `map_test`: both succeed, in different
      slots. */
  method TestInserts() returns (m: Map, ghost p1: nat, ghost p2: nat)
    ensures m.Valid() && m.size == 512 && p1 < 512 && p2 < 512 && p1 != p2
    ensures m.taken[p1] && m.keys[p1] == 15 && m.values[p1] == 0xDEAD
    ensures m.taken[p2] && m.keys[p2] == 527 && m.values[p2] == 0xBEEF
  {
    m := new Map(512);
    assert m.Hash(15) == m.Hash(527) == 15;
    assert !m.Full() by { assert !m.taken[0]; }
    var ok1;
    ok1, p1 := m.Insert(15, 0xDEAD);
    assert !m.Full() by {
      var q := if p1 == 0 then 1 else 0;
      assert !m.taken[..][q];
    }
    var ok2;
    ok2, p2 := m.Insert(527, 0xBEEF);
    assert ok1 && ok2 && p1 != p2;
    assert m.taken[..][p1] && m.keys[..][p1] == 15 && m.values[..][p1] == 0xDEAD;
    assert m.taken[..][p2] && m.keys[..][p2] == 527 && m.values[..][p2] == 0xBEEF;
  }
}
