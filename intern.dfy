/** The string interner of intern.c: a table searched linearly, so that two
    identifiers with the same text get the same entry. The C code hands out
    the entry's `char *`; address identity is modelled by the entry's index in
    the table. */
module Interner {
  import opened Common

  const NUL: char := 0 as char

  /** `Str_Intern`: the length and the heap copy of the text, NUL included. */
  datatype Entry = Entry(len: nat, str: seq<char>)

  predicate NoNul(s: seq<char>) {
    forall i :: 0 <= i < |s| ==> s[i] != NUL
  }

  /** The entry `str_intern_range` builds for the text `s`. */
  function MakeEntry(s: seq<char>): (e: Entry)
    requires NoNul(s)
    ensures WellFormed(e) && Text(e) == s
  {
    Entry(|s|, s + [NUL])
  }

  predicate WellFormed(e: Entry) {
    |e.str| == e.len + 1 && e.str[e.len] == NUL && NoNul(e.str[..e.len])
  }

  /** The characters before the terminator. */
  function Text(e: Entry): seq<char>
    requires WellFormed(e)
  {
    e.str[..e.len]
  }

  /** Every entry is well formed and no text occurs twice. */
  predicate ValidTable(t: seq<Entry>) {
    (forall i :: 0 <= i < |t| ==> WellFormed(t[i])) &&
    (forall i, j :: 0 <= i < j < |t| ==> Text(t[i]) != Text(t[j]))
  }

  /** Index of the first entry whose length and text match `s`, if any. */
  function Find(t: seq<Entry>, s: seq<char>): (r: Option<nat>)
    requires forall i :: 0 <= i < |t| ==> WellFormed(t[i])
    ensures r.Some? ==> r.value < |t| && Text(t[r.value]) == s
    ensures r.Some? ==> forall j :: 0 <= j < r.value ==> Text(t[j]) != s
    ensures r.None? ==> forall j :: 0 <= j < |t| ==> Text(t[j]) != s
  {
    if |t| == 0 then None
    else if Text(t[0]) == s then Some(0)
    else match Find(t[1..], s)
      case None => None
      case Some(k) => Some(k + 1)
  }

  /** What one call of `str_intern_range` on the text `s` returns (the index
      of the entry) and what the table is afterwards. */
  function InternF(t: seq<Entry>, s: seq<char>): (seq<Entry>, nat)
    requires ValidTable(t) && NoNul(s)
  {
    match Find(t, s)
    case Some(i) => (t, i)
    case None => (t + [MakeEntry(s)], |t|)
  }

  /** `strlen`: the index of the first NUL. */
  function StrLen(s: seq<char>): (n: nat)
    requires exists i :: 0 <= i < |s| && s[i] == NUL
    ensures n < |s| && s[n] == NUL && NoNul(s[..n])
  {
    if s[0] == NUL then 0
    else
      assert exists i :: 0 <= i < |s[1..]| && s[1..][i] == NUL by {
        var i :| 0 <= i < |s| && s[i] == NUL;
        assert s[1..][i - 1] == NUL;
      }
      var n := 1 + StrLen(s[1..]);
      assert s[..n] == [s[0]] + s[1..][..n - 1];
      n
  }

  /** The global `str_interns` buffer. */
  class InternTable {
    var entries: seq<Entry>

    ghost predicate Valid()
      reads this
    {
      ValidTable(entries)
    }

    constructor ()
      ensures Valid() && entries == []
    {
      entries := [];
    }

    /** `str_intern_range(start, end)` on the characters `src[start..end]`. */
    method InternRange(src: seq<char>, start: nat, end: nat) returns (id: nat)
      requires Valid()
      requires start <= end <= |src| && NoNul(src[start..end])
      modifies this
      ensures Valid()
      ensures (entries, id) == InternF(old(entries), src[start..end])
    {
      var len := end - start;
      var i := 0;
      while i < |entries|
        invariant 0 <= i <= |entries|
        invariant forall j :: 0 <= j < i ==> Text(entries[j]) != src[start..end]
      {
        if entries[i].len == len && entries[i].str[..len] == src[start..end] {
          return i;
        }
        i := i + 1;
      }
      var interned := src[start..end] + [NUL];
      entries := entries + [Entry(len, interned)];
      id := |entries| - 1;
      assert Text(entries[id]) == src[start..end];
    }

    /** `str_intern(s)`: intern the text up to the first NUL of `s`. */
    method Intern(s: seq<char>) returns (id: nat)
      requires Valid()
      requires exists i :: 0 <= i < |s| && s[i] == NUL
      modifies this
      ensures Valid()
      ensures (entries, id) == InternF(old(entries), s[..StrLen(s)])
    {
      id := InternRange(s, 0, StrLen(s));
    }
  }

  // ---------------------------------------------------------------------
  // Properties of interning

  /** A text already in the table yields that entry; the table is unchanged. */
  lemma InternFound(t: seq<Entry>, s: seq<char>, i: nat)
    requires ValidTable(t) && NoNul(s)
    requires i < |t| && Text(t[i]) == s
    ensures InternF(t, s) == (t, i)
  {
  }

  /** A new text appends exactly one NUL-terminated copy and yields it. */
  lemma InternAppends(t: seq<Entry>, s: seq<char>)
    requires ValidTable(t) && NoNul(s)
    requires forall j :: 0 <= j < |t| ==> Text(t[j]) != s
    ensures InternF(t, s) == (t + [Entry(|s|, s + [NUL])], |t|)
  {
  }

  /** Interning keeps the table valid, never changes an existing entry and
      returns an entry whose text is the interned text. */
  lemma InternPreserves(t: seq<Entry>, s: seq<char>)
    requires ValidTable(t) && NoNul(s)
    ensures ValidTable(InternF(t, s).0)
    ensures InternF(t, s).1 < |InternF(t, s).0|
    ensures t <= InternF(t, s).0
    ensures Text(InternF(t, s).0[InternF(t, s).1]) == s
  {
    var (t', id) := InternF(t, s);
    if Find(t, s).None? {
      assert t' == t + [MakeEntry(s)];
      forall i, j | 0 <= i < j < |t'| ensures Text(t'[i]) != Text(t'[j]) {
        if j == |t| {
          assert t'[i] == t[i];
        } else {
          assert t'[i] == t[i] && t'[j] == t[j];
        }
      }
    }
  }

  /** Two successive interning calls return the same entry exactly when the
      texts are equal. */
  lemma {:induction false} InternIdentity(t: seq<Entry>, a: seq<char>, b: seq<char>)
    requires ValidTable(t) && NoNul(a) && NoNul(b)
    ensures ValidTable(InternF(t, a).0)
    ensures InternF(t, a).1 == InternF(InternF(t, a).0, b).1 <==> a == b
  {
    InternPreserves(t, a);
    var (t1, i1) := InternF(t, a);
    InternPreserves(t1, b);
    var (t2, i2) := InternF(t1, b);
    assert t1 <= t2 && t1[i1] == t2[i1];
    if a == b {
      InternFound(t1, b, i1);
    }
  }

  /** Interning the text of an entry the interner returned (what `str_intern`
      does with a returned string) yields that same entry again. */
  lemma InternIdempotent(t: seq<Entry>, s: seq<char>)
    requires ValidTable(t) && NoNul(s)
    ensures ValidTable(InternF(t, s).0)
    ensures var (t1, id) := InternF(t, s);
      id < |t1| && InternF(t1, Text(t1[id])) == (t1, id)
  {
    InternPreserves(t, s);
    var (t1, id) := InternF(t, s);
    InternFound(t1, Text(t1[id]), id);
  }

  /** A returned string, read as a C string, has exactly the interned text. */
  lemma StrLenOfEntry(e: Entry)
    requires WellFormed(e)
    ensures exists i :: 0 <= i < |e.str| && e.str[i] == NUL
    ensures StrLen(e.str) == e.len && e.str[..StrLen(e.str)] == Text(e)
  {
    assert e.str[e.len] == NUL;
  }

  /** `str_intern_test` (intern.c:27-35): two distinct buffers holding "asdf"
      intern to the same entry, and "ASDF" to a different one. */
  method InternTest(table: InternTable) returns (ia: nat, ib: nat, ic: nat)
    requires table.Valid()
    modifies table
    ensures table.Valid() && ia == ib && ia != ic
  {
    var a := "asdf" + [NUL];
    var b := "asdf" + [NUL];
    var c := "ASDF" + [NUL];
    assert a[4] == NUL && b[4] == NUL && c[4] == NUL;
    StrLenOfText("asdf");
    StrLenOfText("ASDF");
    ghost var t0 := table.entries;
    ia := table.Intern(a);
    ib := table.Intern(b);
    InternIdentity(t0, "asdf", "asdf");
    assert ia == ib;
    ghost var t1 := table.entries;
    var ia2 := table.Intern(a);
    ic := table.Intern(c);
    InternIdentity(t1, "asdf", "ASDF");
    assert "asdf"[0] != "ASDF"[0];
    assert ia2 != ic;
  }

  lemma StrLenOfText(s: seq<char>)
    requires NoNul(s)
    ensures (s + [NUL])[|s|] == NUL
    ensures StrLen(s + [NUL]) == |s| && (s + [NUL])[..|s|] == s
  {
    StrLenOfEntry(MakeEntry(s));
  }
}
