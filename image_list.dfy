/** Values the image panel works on: image entries, the card configuration that
    owns them, and the list operations its handlers perform (move one entry,
    drop the selected entries, collect the urls). */
module ImageList {

  datatype Option<T> = None | Some(value: T)

  /** One entry of `config.images`; the url is its identity. */
  datatype Image = Image(url: string, title: string)

  /** The card configuration owned by the host. `showImageIndex` stands for the
      fields the panel never changes; every edit replaces `images` only. */
  datatype Config = Config(images: seq<Image>, showImageIndex: bool)

  // ---------------------------------------------------------------------------
  // Drag reorder: remove at `from`, insert at `to` (two array splices)
  // ---------------------------------------------------------------------------

  /** `s` without its element at `i`: what `splice(i, 1)` leaves behind. */
  function RemoveAt<T>(s: seq<T>, i: nat): (r: seq<T>)
    requires i < |s|
    ensures |r| == |s| - 1
    ensures forall k :: 0 <= k < i ==> r[k] == s[k]
    ensures forall k :: i <= k < |r| ==> r[k] == s[k + 1]
  {
    s[..i] + s[i + 1..]
  }

  /** `s` with `x` placed at position `j`: what `splice(j, 0, x)` produces. */
  function InsertAt<T>(s: seq<T>, j: nat, x: T): (r: seq<T>)
    requires j <= |s|
    ensures |r| == |s| + 1 && r[j] == x
    ensures forall k :: 0 <= k < j ==> r[k] == s[k]
    ensures forall k :: j < k < |r| ==> r[k] == s[k - 1]
  {
    s[..j] + [x] + s[j..]
  }

  /** The list after dragging the entry at `from` to position `to`. */
  function Moved<T>(s: seq<T>, from: nat, to: nat): (r: seq<T>)
    requires from < |s| && to < |s|
    ensures |r| == |s|
  {
    InsertAt(RemoveAt(s, from), to, s[from])
  }

  /** Element by element: positions outside the span between `from` and `to`
      keep their entry, the moved entry lands at `to`, and the entries in
      between shift one place towards `from`. */
  lemma MovedAt<T>(s: seq<T>, from: nat, to: nat, k: nat)
    requires from < |s| && to < |s| && k < |s|
    ensures Moved(s, from, to)[k] ==
      if k == to then s[from]
      else if from < to && from <= k < to then s[k + 1]
      else if to < from && to < k <= from then s[k - 1]
      else s[k]
  {
  }

  /** Deleting the landing position of the moved entry gives back the list with
      the entry removed from where it was picked up. */
  lemma MovedRemove<T>(s: seq<T>, from: nat, to: nat)
    requires from < |s| && to < |s|
    ensures Moved(s, from, to)[to] == s[from]
    ensures RemoveAt(Moved(s, from, to), to) == RemoveAt(s, from)
  {
  }

  /** A move only rearranges the list: the same entries, as many times each. */
  lemma MovedPermutation<T>(s: seq<T>, from: nat, to: nat)
    requires from < |s| && to < |s|
    ensures multiset(Moved(s, from, to)) == multiset(s)
  {
    var rest := RemoveAt(s, from);
    calc {
      multiset(Moved(s, from, to));
      multiset(rest[..to] + [s[from]] + rest[to..]);
      multiset(rest[..to]) + multiset{s[from]} + multiset(rest[to..]);
      { assert rest == rest[..to] + rest[to..]; }
      multiset(rest) + multiset{s[from]};
      multiset(s[..from]) + multiset(s[from + 1..]) + multiset{s[from]};
      { assert s == s[..from] + [s[from]] + s[from + 1..]; }
      multiset(s);
    }
  }

  /** Dropping an entry where it was picked up changes nothing. */
  lemma MovedSame<T>(s: seq<T>, i: nat)
    requires i < |s|
    ensures Moved(s, i, i) == s
  {
  }

  /** Dragging the entry back from `to` to `from` undoes the move. */
  lemma MovedInverse<T>(s: seq<T>, from: nat, to: nat)
    requires from < |s| && to < |s|
    ensures Moved(Moved(s, from, to), to, from) == s
  {
  }

  /** The two worked examples: on [A,B,C,D], 0 -> 2 gives [B,C,A,D] and
      3 -> 0 gives [D,A,B,C]. */
  lemma MovedExamples<T>(a: T, b: T, c: T, d: T)
    ensures Moved([a, b, c, d], 0, 2) == [b, c, a, d]
    ensures Moved([a, b, c, d], 3, 0) == [d, a, b, c]
  {
  }

  /** The reorder handler's array work: copy the list (`concat()`), then move
      the entry at `from` to `to` inside the copy. On a fixed-length array the
      two splices amount to shifting the entries between the two positions by
      one place and writing the moved entry at `to`. */
  method SpliceMove<T>(s: seq<T>, from: nat, to: nat) returns (r: seq<T>)
    requires from < |s| && to < |s|
    ensures r == Moved(s, from, to)
  {
    var a := new T[|s|](k requires 0 <= k < |s| => s[k]);
    var moved := a[from];
    var k := from;
    if from < to {
      while k < to
        invariant from <= k <= to
        invariant forall m :: 0 <= m < from ==> a[m] == s[m]
        invariant forall m :: from <= m < k ==> a[m] == s[m + 1]
        invariant forall m :: k <= m < a.Length ==> a[m] == s[m]
      {
        a[k] := a[k + 1];
        k := k + 1;
      }
    } else {
      while k > to
        invariant to <= k <= from
        invariant forall m :: 0 <= m <= k ==> a[m] == s[m]
        invariant forall m :: k < m <= from ==> a[m] == s[m - 1]
        invariant forall m :: from < m < a.Length ==> a[m] == s[m]
      {
        a[k] := a[k - 1];
        k := k - 1;
      }
    }
    a[to] := moved;
    r := a[..];
    forall m | 0 <= m < |s| ensures r[m] == Moved(s, from, to)[m] {
      MovedAt(s, from, to, m);
    }
  }

  /** The list after a run of drags, applied in order. */
  function MovedAll<T>(s: seq<T>, moves: seq<(nat, nat)>): (r: seq<T>)
    requires forall k :: 0 <= k < |moves| ==> moves[k].0 < |s| && moves[k].1 < |s|
    ensures |r| == |s|
    ensures multiset(r) == multiset(s)
  {
    if moves == [] then s
    else
      var prev := MovedAll(s, moves[..|moves| - 1]);
      var last := moves[|moves| - 1];
      MovedPermutation(prev, last.0, last.1);
      Moved(prev, last.0, last.1)
  }

  // ---------------------------------------------------------------------------
  // Delete-selected: keep the entries whose url is not selected
  // ---------------------------------------------------------------------------

  /** `images.filter(image => !selected.has(image.url))`. */
  function Kept(s: seq<Image>, selected: set<string>): (r: seq<Image>)
    ensures |r| <= |s|
    ensures forall e :: e in r ==> e in s && e.url !in selected
  {
    if s == [] then []
    else (if s[0].url in selected then [] else [s[0]]) + Kept(s[1..], selected)
  }

  /** Filtering a concatenation filters each part and keeps them in order; with
      KeptSingle this pins the filter down: it keeps original relative order. */
  lemma {:induction false} KeptAppend(a: seq<Image>, b: seq<Image>, selected: set<string>)
    ensures Kept(a + b, selected) == Kept(a, selected) + Kept(b, selected)
  {
    if a == [] {
      assert a + b == b;
    } else {
      assert (a + b)[1..] == a[1..] + b;
      KeptAppend(a[1..], b, selected);
    }
  }

  /** A single entry is kept exactly when its url is not selected. */
  lemma KeptSingle(e: Image, selected: set<string>)
    ensures Kept([e], selected) == if e.url in selected then [] else [e]
  {
  }

  /** Every unselected entry survives as many times as it occurred; every
      selected one disappears. */
  lemma {:induction false} KeptCount(s: seq<Image>, selected: set<string>, e: Image)
    ensures multiset(Kept(s, selected))[e] == if e.url in selected then 0 else multiset(s)[e]
  {
    if s != [] {
      KeptCount(s[1..], selected, e);
      assert s == [s[0]] + s[1..];
    }
  }

  /** Deleting with nothing selected keeps the list as it is. */
  lemma {:induction false} KeptNoneSelected(s: seq<Image>)
    ensures Kept(s, {}) == s
  {
    if s != [] {
      KeptNoneSelected(s[1..]);
      assert s == [s[0]] + s[1..];
    }
  }

  // ---------------------------------------------------------------------------
  // Select-all: the set of urls of a list
  // ---------------------------------------------------------------------------

  /** The urls occurring in `s`. */
  function Urls(s: seq<Image>): (u: set<string>)
    ensures forall i :: 0 <= i < |s| ==> s[i].url in u
    ensures forall x :: x in u ==> exists i :: 0 <= i < |s| && s[i].url == x
  {
    if s == [] then {}
    else Urls(s[..|s| - 1]) + {s[|s| - 1].url}
  }

  /** When every url of the list is selected, nothing is kept. */
  lemma {:induction false} KeptAllSelected(s: seq<Image>, selected: set<string>)
    requires forall i :: 0 <= i < |s| ==> s[i].url in selected
    ensures Kept(s, selected) == []
  {
    if s != [] {
      KeptAllSelected(s[1..], selected);
    }
  }

  /** Selecting every url and then deleting the selection empties the list. */
  lemma DeleteAllSelected(s: seq<Image>)
    ensures Kept(s, Urls(s)) == []
  {
    KeptAllSelected(s, Urls(s));
  }
}
