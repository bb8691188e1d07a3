/** The dynamic array of stb_arr.h: a header holding `len` and `limit` in
    front of a heap buffer of `limit` elements, where NULL stands
    for the empty array. The object below plays the role of the variable
    holding the address: `isNull` says it is NULL, `data` is the buffer
    behind the header, and a reallocation replaces `data`. */
module StbArr {
  import opened Common

  function Min(a: int, b: int): int { if a < b then a else b }

  /** The limit `stb__arrsize_` leaves after a call asking for `req` slots. */
  function NewLimit(wasNull: bool, oldLimit: int, req: int): (r: int)
    ensures wasNull ==> r == req
    ensures !wasNull ==> r >= req && r >= oldLimit
    ensures !wasNull && oldLimit < req ==> (r == req || r == 2 * oldLimit)
    ensures !wasNull && req <= oldLimit ==> r == oldLimit
    ensures !wasNull && 4 <= oldLimit < req < 2 * oldLimit ==> r == 2 * oldLimit
  {
    if wasNull then req
    else if oldLimit < req then
      (if oldLimit >= 4 && req < oldLimit * 2 then oldLimit * 2 else req)
    else oldLimit
  }

  /** `stb__arrsize_` multiplies the old limit by two only on this path. */
  predicate Doubles(wasNull: bool, oldLimit: int, req: int) {
    !wasNull && oldLimit < req && oldLimit >= 4
  }

  /** What `deleten(i, n)` leaves of the elements `s`. */
  function Deleted<T>(s: seq<T>, i: nat, n: nat): (r: seq<T>)
    requires i + n <= |s|
    ensures |r| == |s| - n
    ensures forall j :: 0 <= j < i ==> r[j] == s[j]
    ensures forall j :: i <= j < |r| ==> r[j] == s[j + n]
  {
    s[..i] + s[i + n..]
  }

  /** `t` is what `insertn(i, n)` may leave of `s`: the n new slots at `i`
      hold whatever the buffer held there. */
  ghost predicate InsertedAt<T>(s: seq<T>, t: seq<T>, i: nat, n: nat)
    requires i <= |s|
  {
    |t| == |s| + n && t[..i] == s[..i] && t[i + n..] == s[i..]
  }

  /** The `memmove` of `stb__insertn`: elements `i..z` move up by `n`,
      last one first, so the first `i + n` stay as they were. */
  method ShiftUp<T>(a: array<T>, i: int, z: int, n: int)
    requires 0 <= i <= z && 0 <= n && z + n <= a.Length
    modifies a
    ensures forall j :: 0 <= j < i + n ==> a[j] == old(a[j])
    ensures forall j :: i + n <= j < z + n ==> a[j] == old(a[j - n])
    ensures forall j :: z + n <= j < a.Length ==> a[j] == old(a[j])
  {
    var k := z;
    while k > i
      invariant i <= k <= z
      invariant forall j :: 0 <= j < k + n ==> a[j] == old(a[j])
      invariant forall j :: k + n <= j < z + n ==> a[j] == old(a[j - n])
      invariant forall j :: z + n <= j < a.Length ==> a[j] == old(a[j])
      decreases k
    {
      k := k - 1;
      a[k + n] := a[k];
    }
  }

  class Arr<T(0)> {
    var isNull: bool
    var len: int
    var limit: int
    var data: array<T>

    ghost predicate Valid()
      reads this
    {
      (isNull ==> len == 0 && limit == 0) &&
      0 <= len <= limit == data.Length <= INT_MAX
    }

    /** The elements in use. */
    ghost function Elems(): seq<T>
      reads this, data
      requires Valid()
    {
      data[..len]
    }

    /** `T *a = NULL;` */
    constructor ()
      ensures Valid() && isNull && Elems() == [] && fresh(data)
    {
      isNull, len, limit := true, 0, 0;
      data := new T[0];
    }

    /** `stb_arr_len(a)`. */
    function Len(): (n: int)
      reads this, data
      requires Valid()
      ensures n == |Elems()|
      ensures isNull ==> n == 0
    {
      if isNull then 0 else len
    }

    /** `stb_arr_empty(a)`. */
    function Empty(): (e: bool)
      reads this, data
      requires Valid()
      ensures e <==> Elems() == []
    {
      Len() == 0
    }

    /** `stb_arrcurmax(a)`. */
    function CurMax(): (m: int)
      reads this
      requires Valid()
      ensures m == data.Length && m >= Len()
    {
      if isNull then 0 else limit
    }

    /** The `realloc` of `stb__arr_setsize_`: a fresh buffer of
        `newLimit` slots holding the old ones in front. */
    method Grow(newLimit: int)
      requires limit == data.Length <= newLimit
      modifies this
      ensures fresh(data) && limit == newLimit == data.Length
      ensures isNull == old(isNull) && len == old(len)
      ensures forall j :: 0 <= j < old(limit) ==> data[j] == old(data[j])
    {
      var grown := new T[newLimit];
      forall j | 0 <= j < limit {
        grown[j] := data[j];
      }
      data, limit := grown, newLimit;
    }

    /** `stb__arrsize_(&a, sizeof *a, lim, l)`: set the length to `l` and make
        room for `lim` elements, doubling a limit of at least 4 when that is
        more than asked for; the length is then cut to the limit. A realloc
        keeps the old contents. */
    method ArrSize(lim: int, l: int)
      requires Valid()
      requires 0 <= lim <= INT_MAX && 0 <= l
      requires Doubles(isNull, limit, lim) ==> 2 * limit <= INT_MAX
      modifies this
      ensures Valid() && !isNull
      ensures limit == NewLimit(old(isNull), old(limit), lim)
      ensures len == Min(l, limit)
      ensures Elems()[..Min(old(len), len)] == old(Elems())[..Min(old(len), len)]
      ensures data == old(data) || fresh(data)
    {
      if isNull {
        data := new T[lim];
        limit, len, isNull := lim, l, false;
      } else {
        len := l;
        if limit < lim {
          var newLimit := lim;
          if limit >= 4 && lim < limit * 2 {
            newLimit := limit * 2;
          }
          Grow(newLimit);
        }
      }
      len := Min(len, limit);
      assert forall j :: 0 <= j < Min(old(len), len) ==> data[j] == old(data[j]);
    }

    /** `stb__arr_setsize_`: ask for `lim` slots, keeping the length. */
    method SetSize(lim: int)
      requires Valid()
      requires 0 <= lim <= INT_MAX
      requires Doubles(isNull, limit, lim) ==> 2 * limit <= INT_MAX
      modifies this
      ensures Valid() && !isNull
      ensures limit == NewLimit(old(isNull), old(limit), lim)
      ensures Elems() == old(Elems())[..Min(old(len), limit)]
      ensures data == old(data) || fresh(data)
    {
      ArrSize(lim, Len());
    }

    /** `stb__arr_setlen_`: make the length exactly `n`; a buffer that is too
        small, or a NULL array, is resized to `n`. */
    method SetLen(n: int)
      requires Valid()
      requires 0 <= n <= INT_MAX
      requires Doubles(isNull, limit, n) ==> 2 * limit <= INT_MAX
      modifies this
      ensures Valid() && !isNull && len == n
      ensures limit == NewLimit(old(isNull), old(limit), n)
      ensures Elems()[..Min(old(len), n)] == old(Elems())[..Min(old(len), n)]
      ensures n <= old(limit) && !old(isNull) ==> data == old(data) && limit == old(limit)
      ensures data == old(data) || fresh(data)
    {
      if CurMax() < n || isNull {
        ArrSize(n, n);
      } else {
        len := n;
      }
    }

    /** `stb__arr_addlen_`: grow the length by `n`. */
    method AddLen(n: int)
      requires Valid()
      requires 0 <= n && Len() + n <= INT_MAX
      requires Doubles(isNull, limit, Len() + n) ==> 2 * limit <= INT_MAX
      modifies this
      ensures Valid() && !isNull && len == old(Len()) + n
      ensures limit == NewLimit(old(isNull), old(limit), old(Len()) + n)
      ensures Elems()[..old(len)] == old(Elems())
      ensures data == old(data) || fresh(data)
    {
      SetLen(Len() + n);
    }

    /** `stb_arr_addn(a, n)`: `n` new elements at the end; the result is the
        index of the first of them. Growing in place dereferences the header,
        so a NULL array needs `n > 0`. */
    method AddN(n: int) returns (first: int)
      requires Valid()
      requires 0 <= n && Len() + n <= INT_MAX && (isNull ==> n > 0)
      requires Len() + n > CurMax() && Doubles(isNull, limit, Len() + n) ==> 2 * limit <= INT_MAX
      modifies this
      ensures Valid() && !isNull && len == old(Len()) + n && first == old(Len())
      ensures Elems()[..first] == old(Elems())
      ensures old(Len()) + n <= old(CurMax()) ==> data == old(data) && limit == old(limit)
      ensures old(Len()) + n > old(CurMax()) ==>
        limit == NewLimit(old(isNull), old(limit), old(Len()) + n)
      ensures data == old(data) || fresh(data)
    {
      if Len() + n > CurMax() {
        AddLen(n);
      } else {
        len := len + n;
      }
      first := Len() - n;
    }

    /** `a[i] = v` on the array variable. */
    method Set(i: int, v: T)
      requires Valid() && 0 <= i < Len()
      modifies data
      ensures Valid() && Elems() == old(Elems())[i := v]
    {
      data[i] := v;
    }

    /** `stb_arr_push(a, v)`. */
    method Push(v: T)
      requires Valid()
      requires Len() < INT_MAX
      requires Len() + 1 > CurMax() && Doubles(isNull, limit, Len() + 1) ==> 2 * limit <= INT_MAX
      modifies this, data
      ensures Valid() && !isNull
      ensures Elems() == old(Elems()) + [v]
      ensures old(Len()) + 1 <= old(CurMax()) ==> limit == old(limit)
      ensures old(Len()) + 1 > old(CurMax()) ==>
        limit == NewLimit(old(isNull), old(limit), old(Len()) + 1)
      ensures data == old(data) || fresh(data)
    {
      var at := AddN(1);
      ghost var before := data[..len];
      data[at] := v;
      assert data[..len] == before[at := v];
    }

    /** `stb_arr_pop(a)`: drop the last element and return it. */
    method Pop() returns (v: T)
      requires Valid() && Len() > 0
      modifies this
      ensures Valid() && !isNull && data == old(data) && limit == old(limit)
      ensures old(Elems()) == Elems() + [v]
    {
      len := len - 1;
      v := data[len];
    }

    /** `stb__arr_insertn_`: open a gap of `n` elements at `i`, moving the
        tail up with `memmove` (copied from the top down). */
    method InsertN(i: int, n: int)
      requires Valid()
      requires 0 <= i <= Len() && 0 <= n && Len() + n <= INT_MAX
      requires n != 0 && Doubles(isNull, limit, Len() + n) ==> 2 * limit <= INT_MAX
      modifies this, data
      ensures Valid()
      ensures InsertedAt(old(Elems()), Elems(), i, n)
      ensures n != 0 ==> !isNull && limit == NewLimit(old(isNull), old(limit), old(Len()) + n)
      ensures n == 0 ==> isNull == old(isNull) && limit == old(limit)
      ensures data == old(data) || fresh(data)
    {
      if n != 0 {
        if isNull {
          AddLen(n);
          assert Elems()[..i] == [] && Elems()[i + n..] == [];
          return;
        }
        var z := Len();
        AddLen(n);
        ghost var s := data[..];
        ShiftUp(data, i, z, n);
        assert Elems()[..i] == s[..i];
        assert Elems()[i + n..] == s[i..z] by {
          forall j | 0 <= j < z - i ensures Elems()[i + n..][j] == s[i..z][j] {
            assert data[i + n + j] == s[i + j];
          }
        }
      }
    }

    /** `stb__arr_deleten_`: remove `n` elements at `i`, moving the tail down
        with `memmove` (copied from the bottom up). */
    method DeleteN(i: int, n: int)
      requires Valid()
      requires 0 <= i && 0 <= n && i + n <= Len()
      requires n != 0 ==> !isNull
      modifies this, data
      ensures Valid() && data == old(data) && limit == old(limit) && isNull == old(isNull)
      ensures Elems() == Deleted(old(Elems()), i, n)
    {
      if n != 0 {
        ghost var s := data[..len];
        var k := i;
        while k < len - n
          invariant Valid() && data == old(data) && len == old(len)
          invariant limit == old(limit) && isNull == old(isNull)
          invariant i <= k <= len - n && s == old(Elems())
          invariant forall j :: 0 <= j < i ==> data[j] == s[j]
          invariant forall j :: i <= j < k ==> data[j] == s[j + n]
          invariant forall j :: k <= j < len ==> data[j] == s[j]
          decreases len - k
        {
          data[k] := data[k + n];
          k := k + 1;
        }
        len := len - n;
      }
    }
  }

  // ---------------------------------------------------------------------
  // Properties

  /** Deleting the gap an insertion opened gives back the original elements. */
  lemma {:induction false} DeleteUndoesInsert<T>(s: seq<T>, t: seq<T>, i: nat, n: nat)
    requires i <= |s| && InsertedAt(s, t, i, n)
    ensures Deleted(t, i, n) == s
  {
    assert s == s[..i] + s[i..];
    assert t[..i] == s[..i];
    assert t[i + n..] == s[i..];
  }

  /** The example in the header's usage comment (stb_arr.h:11-34): three
      pushes, one more element set to 3, three more set to 4, 5, 6, and a pop
      leave six elements with element 5 equal to 5. Element 1 is 1; the
      comment's claim that it is 2 does not hold. */
  method UsageExample() returns (len: int, second: int, sixth: int)
    ensures len == 6 && second == 1 && sixth == 5
  {
    var a := new Arr<int>();
    a.Push(0);
    assert a.limit == 1 && a.Elems() == [0];
    a.Push(1);
    assert a.limit == 2 && a.Elems() == [0, 1];
    a.Push(2);
    assert a.limit == 3 && a.Elems() == [0, 1, 2];
    UsageExampleTail(a);
    len := a.Len();
    second := a.data[1];
    sixth := a.data[5];
  }

  /** The rest of the usage example, from the three pushed elements on. */
  method UsageExampleTail(a: Arr<int>)
    requires a.Valid() && !a.isNull && a.limit == 3 && a.Elems() == [0, 1, 2]
    modifies a, a.data
    ensures a.Valid() && a.limit == 8 && a.Elems() == [0, 1, 2, 3, 4, 5]
  {
    var at := a.AddN(1);
    assert a.limit == 4 && at == 3;
    a.Set(at, 3);
    assert a.Elems() == [0, 1, 2, 3];
    var temp := a.AddN(3);
    assert a.limit == 8 && temp == 4;
    a.Set(temp, 4);
    a.Set(temp + 1, 5);
    a.Set(temp + 2, 6);
    assert a.Elems() == [0, 1, 2, 3, 4, 5, 6];
    assert a.Elems()[5] == 5;
    var last := a.Pop();
    assert last == 6 && a.Len() == 6;
    assert a.Elems() == [0, 1, 2, 3, 4, 5];
  }
}
