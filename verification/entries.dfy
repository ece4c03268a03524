/**
 * Operations on the in-memory and stored list of notes that the editor
 * shell (App.tsx), the guest storage adapter (services/storage.ts) and the
 * history panel (components/HistoryPanel.tsx) share: the snippet derivation,
 * `findIndex`/`find` by id, the replace-or-prepend upsert, the delete filter
 * and the `createdAt`-descending sort.
 */
module Entries {
  import opened Types

  const SnippetLength := 30
  const Ellipsis := "..."

  /**
   * The preview of a note: its first 30 characters with every newline
   * turned into a space, followed by "..." exactly when the note is longer.
   */
  function Snippet(content: string): (r: string)
    ensures |r| <= SnippetLength + |Ellipsis|
    ensures '\n' !in r
    ensures |content| <= SnippetLength ==> |r| == |content|
    ensures |content| > SnippetLength <==>
      |r| == SnippetLength + |Ellipsis| && r[SnippetLength..] == Ellipsis
    ensures forall i :: 0 <= i < |r| && i < SnippetLength && i < |content| ==>
      r[i] == if content[i] == '\n' then ' ' else content[i]
  {
    var head := if |content| <= SnippetLength then content else content[..SnippetLength];
    var flat := seq(|head|, i requires 0 <= i < |head| => if head[i] == '\n' then ' ' else head[i]);
    flat + (if |content| > SnippetLength then Ellipsis else "")
  }

  /** The number of entries of `s` that carry `id`. */
  function CountId(s: seq<NoteEntry>, id: string): (n: nat)
    ensures n <= |s|
    ensures n == 0 <==> forall i :: 0 <= i < |s| ==> s[i].id != id
  {
    if s == [] then 0 else (if s[0].id == id then 1 else 0) + CountId(s[1..], id)
  }

  /** No two entries share an id. */
  ghost predicate UniqueIds(s: seq<NoteEntry>) {
    forall id :: CountId(s, id) <= 1
  }

  lemma {:induction false} CountAppend(a: seq<NoteEntry>, b: seq<NoteEntry>, id: string)
    ensures CountId(a + b, id) == CountId(a, id) + CountId(b, id)
  {
    if a == [] {
      assert a + b == b;
    } else {
      assert (a + b)[1..] == a[1..] + b;
      CountAppend(a[1..], b, id);
    }
  }

  lemma {:induction false} CountUpdate(s: seq<NoteEntry>, i: nat, e: NoteEntry, id: string)
    requires i < |s|
    ensures CountId(s[i := e], id)
         == CountId(s, id) - (if s[i].id == id then 1 else 0) + (if e.id == id then 1 else 0)
  {
    if i == 0 {
      assert s[i := e][1..] == s[1..];
    } else {
      assert s[i := e][1..] == s[1..][i - 1 := e];
      CountUpdate(s[1..], i - 1, e, id);
    }
  }

  /** `findIndex(e => e.id === id)`: the first position holding `id`, or -1 when there is none. */
  function IndexOf(s: seq<NoteEntry>, id: string): (r: int)
    ensures -1 <= r < |s|
    ensures r >= 0 ==> s[r].id == id
    ensures forall j :: 0 <= j < |s| && (r < 0 || j < r) ==> s[j].id != id
  {
    if s == [] then -1
    else if s[0].id == id then 0
    else
      var k := IndexOf(s[1..], id);
      if k < 0 then -1 else k + 1
  }

  /** `find(e => e.id === id)`: the first entry holding `id`, if any. */
  function Find(s: seq<NoteEntry>, id: string): (r: Option<NoteEntry>)
    ensures r.Some? <==> CountId(s, id) > 0
    ensures r.Some? ==> r.value in s && r.value.id == id
    ensures r.Some? ==> exists i :: 0 <= i < |s| && s[i] == r.value && forall j :: 0 <= j < i ==> s[j].id != id
  {
    var i := IndexOf(s, id);
    if i >= 0 then Some(s[i]) else None
  }

  /**
   * Replace the first entry holding `e.id` by `e` at the same position, or
   * put `e` in front when no entry holds that id.
   */
  function Upsert(s: seq<NoteEntry>, e: NoteEntry): (r: seq<NoteEntry>)
    ensures CountId(s, e.id) > 0 ==>
      var i := IndexOf(s, e.id);
      |r| == |s| && r[i] == e && forall j :: 0 <= j < |s| && j != i ==> r[j] == s[j]
    ensures CountId(s, e.id) == 0 ==> r == [e] + s
  {
    var i := IndexOf(s, e.id);
    if i >= 0 then s[i := e] else [e] + s
  }

  /** After an upsert, `e` is held exactly once if its id was held at most once, and other ids are untouched. */
  lemma UpsertCounts(s: seq<NoteEntry>, e: NoteEntry)
    ensures CountId(s, e.id) <= 1 ==> CountId(Upsert(s, e), e.id) == 1
    ensures forall id :: id != e.id ==> CountId(Upsert(s, e), id) == CountId(s, id)
    ensures UniqueIds(s) ==> UniqueIds(Upsert(s, e))
    ensures e in Upsert(s, e)
  {
    var i := IndexOf(s, e.id);
    if i >= 0 {
      forall id ensures CountId(Upsert(s, e), id)
                     == CountId(s, id) - (if s[i].id == id then 1 else 0) + (if e.id == id then 1 else 0) {
        CountUpdate(s, i, e, id);
      }
    } else {
      assert Upsert(s, e)[1..] == s;
    }
    assert Upsert(s, e)[if i >= 0 then i else 0] == e;
  }

  /** A lookup by `e.id` after the upsert finds `e`; lookups of other ids find what they found before. */
  lemma UpsertFind(s: seq<NoteEntry>, e: NoteEntry)
    ensures Find(Upsert(s, e), e.id) == Some(e)
    ensures forall id :: id != e.id ==> Find(Upsert(s, e), id) == Find(s, id)
  {
    var r := Upsert(s, e);
    var i := IndexOf(s, e.id);
    if i >= 0 {
      assert r[i].id == e.id;
      assert forall j :: 0 <= j < i ==> r[j] == s[j];
      forall id | id != e.id ensures Find(r, id) == Find(s, id) {
        assert forall j :: 0 <= j < |s| && j != i ==> r[j] == s[j];
        assert r[i].id != id && s[i].id != id;
      }
    } else {
      assert r[0] == e;
      assert r[1..] == s;
    }
  }

  /** `filter(e => e.id !== id)`: every entry holding `id` dropped, the others kept in order. */
  function RemoveId(s: seq<NoteEntry>, id: string): (r: seq<NoteEntry>)
    ensures CountId(r, id) == 0
    ensures forall k :: k != id ==> CountId(r, k) == CountId(s, k)
    ensures |r| == |s| - CountId(s, id)
    ensures forall x :: x in r <==> x in s && x.id != id
  {
    if s == [] then []
    else if s[0].id == id then RemoveId(s[1..], id)
    else
      var rest := RemoveId(s[1..], id);
      assert ([s[0]] + rest)[1..] == rest;
      [s[0]] + rest
  }

  /** Filtering distributes over concatenation: the kept entries stay in their relative order. */
  lemma {:induction false} RemoveIdAppend(a: seq<NoteEntry>, b: seq<NoteEntry>, id: string)
    ensures RemoveId(a + b, id) == RemoveId(a, id) + RemoveId(b, id)
  {
    if a == [] {
      assert a + b == b;
    } else {
      assert (a + b)[1..] == a[1..] + b;
      RemoveIdAppend(a[1..], b, id);
    }
  }

  /** A list in which no entry holds `id` is left as it is. */
  lemma {:induction false} RemoveIdAbsent(s: seq<NoteEntry>, id: string)
    requires CountId(s, id) == 0
    ensures RemoveId(s, id) == s
  {
    if s != [] {
      assert s[0].id != id;
      RemoveIdAbsent(s[1..], id);
    }
  }

  /** Deleting twice is deleting once, and deletion keeps ids unique. */
  lemma RemoveIdIdempotent(s: seq<NoteEntry>, id: string)
    ensures RemoveId(RemoveId(s, id), id) == RemoveId(s, id)
    ensures UniqueIds(s) ==> UniqueIds(RemoveId(s, id))
    ensures Find(RemoveId(s, id), id) == None
  {
    RemoveIdAbsent(RemoveId(s, id), id);
  }

  /** Ordered by `createdAt`, newest first. */
  ghost predicate SortedByCreatedDesc(s: seq<NoteEntry>) {
    forall i, j :: 0 <= i < j < |s| ==> s[i].createdAt >= s[j].createdAt
  }

  /** Insert `e` in front of the first element that is not newer than it (keeps equal keys in input order). */
  function InsertByCreatedDesc(e: NoteEntry, s: seq<NoteEntry>): (r: seq<NoteEntry>)
    ensures multiset(r) == multiset(s) + multiset{e}
  {
    if s == [] || s[0].createdAt <= e.createdAt then
      [e] + s
    else
      assert s == [s[0]] + s[1..];
      [s[0]] + InsertByCreatedDesc(e, s[1..])
  }

  lemma {:induction false} InsertCount(e: NoteEntry, s: seq<NoteEntry>, id: string)
    ensures CountId(InsertByCreatedDesc(e, s), id) == CountId(s, id) + (if e.id == id then 1 else 0)
  {
    var r := InsertByCreatedDesc(e, s);
    if s == [] || s[0].createdAt <= e.createdAt {
      assert r[1..] == s;
    } else {
      assert r[1..] == InsertByCreatedDesc(e, s[1..]);
      InsertCount(e, s[1..], id);
    }
  }

  lemma {:induction false} InsertSorted(e: NoteEntry, s: seq<NoteEntry>)
    requires SortedByCreatedDesc(s)
    ensures SortedByCreatedDesc(InsertByCreatedDesc(e, s))
  {
    var r := InsertByCreatedDesc(e, s);
    if s == [] || s[0].createdAt <= e.createdAt {
    } else {
      var rest := InsertByCreatedDesc(e, s[1..]);
      InsertSorted(e, s[1..]);
      forall x | x in rest ensures x.createdAt <= s[0].createdAt {
        assert x in multiset(rest);
      }
      assert r == [s[0]] + rest;
    }
  }

  /**
   * `sort((a, b) => b.createdAt - a.createdAt)`: a stable sort by
   * `createdAt`, newest first.
   */
  function SortByCreatedDesc(s: seq<NoteEntry>): (r: seq<NoteEntry>)
    ensures multiset(r) == multiset(s)
    ensures |r| == |s|
    ensures SortedByCreatedDesc(r)
  {
    if s == [] then []
    else
      assert s == [s[0]] + s[1..];
      var rest := SortByCreatedDesc(s[1..]);
      InsertSorted(s[0], rest);
      InsertByCreatedDesc(s[0], rest)
  }

  /** Sorting neither adds nor drops an id, so it keeps ids unique. */
  lemma {:induction false} SortCount(s: seq<NoteEntry>, id: string)
    ensures CountId(SortByCreatedDesc(s), id) == CountId(s, id)
  {
    if s != [] {
      var rest := SortByCreatedDesc(s[1..]);
      SortCount(s[1..], id);
      InsertCount(s[0], rest, id);
      assert SortByCreatedDesc(s) == InsertByCreatedDesc(s[0], rest);
    }
  }

  lemma SortUnique(s: seq<NoteEntry>)
    ensures UniqueIds(s) ==> UniqueIds(SortByCreatedDesc(s))
  {
    forall id ensures UniqueIds(s) ==> CountId(SortByCreatedDesc(s), id) <= 1 {
      SortCount(s, id);
    }
  }
}
