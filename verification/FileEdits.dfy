/**
 * Inserting lines into a source file bottom-up (packages/instrumentation-agent/src/implementer.ts), so
 * that earlier insertions do not move the coordinates of later ones.
 */
module FileEdits {
  import opened Sorting

  datatype Edit<T> = Edit(afterLine: int, insert: T)

  function Place<T>(lines: seq<T>, start: int): (at: nat)
    ensures at <= |lines|
  {
    if start < 0 then (if |lines| + start < 0 then 0 else |lines| + start)
    else if start <= |lines| then start else |lines|
  }

  /** lines.splice(start, 0, x): a negative start counts from the end, one past the end is the end. */
  function Splice<T>(lines: seq<T>, start: int, x: T): (r: seq<T>)
    ensures |r| == |lines| + 1
  {
    var at := Place(lines, start);
    lines[..at] + [x] + lines[at..]
  }

  function Descending<T>(): Edit<T> -> real {
    (e: Edit<T>) => -(e.afterLine as real)
  }

  /** The loop over edits already in order. */
  function SpliceAll<T>(lines: seq<T>, edits: seq<Edit<T>>): (r: seq<T>)
    ensures |r| == |lines| + |edits|
  {
    if edits == [] then lines
    else
      var last := edits[|edits| - 1];
      Splice(SpliceAll(lines, edits[..|edits| - 1]), last.afterLine, last.insert)
  }

  function Applied<T>(lines: seq<T>, edits: seq<Edit<T>>): seq<T> {
    SpliceAll(lines, Sorted(Descending(), edits))
  }

  method ApplyEdits<T>(original: seq<T>, edits: seq<Edit<T>>) returns (lines: seq<T>)
    ensures lines == Applied(original, edits)
  {
    lines := original;
    var sorted := Sorted(Descending(), edits);
    for i := 0 to |sorted|
      invariant lines == SpliceAll(original, sorted[..i])
    {
      assert sorted[..i + 1][..i] == sorted[..i];
      lines := Splice(lines, sorted[i].afterLine, sorted[i].insert);
    }
    assert sorted[..|sorted|] == sorted;
  }

  /* ---------------- all at once, in original coordinates ---------------- */

  /** The inserts of these edits, the last listed first. */
  function Reversed<T>(edits: seq<Edit<T>>): seq<T> {
    if edits == [] then [] else [edits[|edits| - 1].insert] + Reversed(edits[..|edits| - 1])
  }

  /** What goes directly after original line number k (before the first line for 0): ties in reverse list order. */
  function Here<T>(edits: seq<Edit<T>>, k: nat): seq<T> {
    Reversed(WithKey(Descending(), edits, -(k as real)))
  }

  /** The new file from after original line k on. */
  function From<T>(lines: seq<T>, edits: seq<Edit<T>>, k: nat): seq<T>
    requires k <= |lines|
    decreases |lines| - k
  {
    Here(edits, k) + if k < |lines| then [lines[k]] + From(lines, edits, k + 1) else []
  }

  function AtOnce<T>(lines: seq<T>, edits: seq<Edit<T>>): seq<T> {
    From(lines, edits, 0)
  }

  ghost predicate Within<T>(lines: seq<T>, edits: seq<Edit<T>>) {
    forall i | 0 <= i < |edits| :: 0 <= edits[i].afterLine <= |lines|
  }

  lemma {:induction false} NothingHere<T>(edits: seq<Edit<T>>, k: nat)
    requires forall i | 0 <= i < |edits| :: k < edits[i].afterLine
    ensures Here(edits, k) == []
  {
    NoneWithKey(Descending(), edits, -(k as real));
  }

  lemma {:induction false} NothingBefore<T>(lines: seq<T>, edits: seq<Edit<T>>, k: nat, a: nat)
    requires k <= a <= |lines|
    requires forall i | 0 <= i < |edits| :: a <= edits[i].afterLine
    ensures From(lines, edits, k) == lines[k..a] + From(lines, edits, a)
    decreases a - k
  {
    if k < a {
      NothingHere(edits, k);
      NothingBefore(lines, edits, k + 1, a);
      assert lines[k..a] == [lines[k]] + lines[k + 1..a];
    } else {
      assert lines[k..a] == [];
    }
  }

  /** What one more listed edit does to the place k: it comes first if it belongs there. */
  lemma {:induction false} HereOneMore<T>(edits: seq<Edit<T>>, e: Edit<T>, k: nat)
    ensures Here(edits + [e], k) == (if e.afterLine == k then [e.insert] else []) + Here(edits, k)
  {
    var here := WithKey(Descending(), edits, -(k as real));
    WithKeyOneMore(Descending(), edits, e, -(k as real));
    assert Descending()(e) == -(e.afterLine as real);
    if e.afterLine == k {
      assert WithKey(Descending(), edits + [e], -(k as real)) == here + [e];
      assert (here + [e])[..|here|] == here;
    } else {
      assert WithKey(Descending(), edits + [e], -(k as real)) == here;
    }
  }

  lemma {:induction false} SameBeyond<T>(lines: seq<T>, edits: seq<Edit<T>>, e: Edit<T>, k: nat)
    requires e.afterLine < k <= |lines|
    ensures From(lines, edits + [e], k) == From(lines, edits, k)
    decreases |lines| - k
  {
    HereOneMore(edits, e, k);
    assert Here(edits + [e], k) == Here(edits, k);
    if k < |lines| {
      SameBeyond(lines, edits, e, k + 1);
    }
  }

  lemma {:induction false} InFront<T>(lines: seq<T>, edits: seq<Edit<T>>, e: Edit<T>)
    requires 0 <= e.afterLine <= |lines|
    ensures From(lines, edits + [e], e.afterLine) == [e.insert] + From(lines, edits, e.afterLine)
  {
    var a := e.afterLine;
    HereOneMore(edits, e, a);
    if a < |lines| {
      SameBeyond(lines, edits, e, a + 1);
      var rest := [lines[a]] + From(lines, edits, a + 1);
      assert [e.insert] + Here(edits, a) + rest == [e.insert] + (Here(edits, a) + rest);
    }
  }

  lemma {:induction false} SpliceAfter<T>(before: seq<T>, rest: seq<T>, x: T)
    ensures Splice(before + rest, |before|, x) == before + ([x] + rest)
  {
  }

  /** A negative line counts from the end; one that far back that nothing is left is the beginning. */
  lemma {:induction false} SpliceFromEnd<T>(before: seq<T>, rest: seq<T>, x: T, far: nat)
    requires rest != [] && (far == 0 || before == [])
    ensures Splice(before + rest, -(|rest| + far), x) == before + ([x] + rest)
  {
  }

  /** An edit at or above all the earlier ones goes in front of whatever stands at its place. */
  lemma {:induction false} OneMore<T>(lines: seq<T>, edits: seq<Edit<T>>, e: Edit<T>)
    requires 0 <= e.afterLine <= |lines|
    requires forall i | 0 <= i < |edits| :: e.afterLine <= edits[i].afterLine
    ensures AtOnce(lines, edits + [e]) == Splice(AtOnce(lines, edits), e.afterLine, e.insert)
  {
    var a := e.afterLine;
    NothingBefore(lines, edits, 0, a);
    NothingBefore(lines, edits + [e], 0, a);
    InFront(lines, edits, e);
    SpliceAfter(lines[0..a], From(lines, edits, a), e.insert);
  }

  lemma {:induction false} NoEdits<T>(lines: seq<T>, k: nat)
    requires k <= |lines|
    ensures From(lines, [], k) == lines[k..]
    decreases |lines| - k
  {
    if k < |lines| {
      NoEdits(lines, k + 1);
    }
  }

  /** In descending order the last edit is at or above all the others. */
  lemma {:induction false} LastIsLowest<T>(edits: seq<Edit<T>>, i: nat)
    requires Ordered(Descending(), edits) && i < |edits|
    ensures edits[|edits| - 1].afterLine <= edits[i].afterLine
  {
    var last := |edits| - 1;
    if i < last {
      assert Descending()(edits[i]) <= Descending()(edits[last]);
    }
  }

  lemma {:induction false} LastAtOnce<T>(lines: seq<T>, front: seq<Edit<T>>, last: Edit<T>)
    requires Ordered(Descending(), front + [last]) && Within(lines, front + [last])
    ensures AtOnce(lines, front + [last]) == Splice(AtOnce(lines, front), last.afterLine, last.insert)
  {
    var all := front + [last];
    assert all[|front|] == last;
    forall i | 0 <= i < |front|
      ensures last.afterLine <= front[i].afterLine
    {
      LastIsLowest(all, i);
      assert all[i] == front[i];
    }
    OneMore(lines, front, last);
  }

  lemma {:induction false} DescendingAtOnce<T>(lines: seq<T>, edits: seq<Edit<T>>)
    requires Ordered(Descending(), edits) && Within(lines, edits)
    ensures SpliceAll(lines, edits) == AtOnce(lines, edits)
  {
    if edits == [] {
      NoEdits(lines, 0);
    } else {
      var front, last := edits[..|edits| - 1], edits[|edits| - 1];
      DescendingAtOnce(lines, front);
      assert edits == front + [last];
      LastAtOnce(lines, front, last);
    }
  }

  lemma {:induction false} SortedStaysWithin<T>(lines: seq<T>, edits: seq<Edit<T>>)
    requires Within(lines, edits)
    ensures Within(lines, Sorted(Descending(), edits))
  {
    var sorted := Sorted(Descending(), edits);
    forall i | 0 <= i < |sorted|
      ensures 0 <= sorted[i].afterLine <= |lines|
    {
      SameElements(Descending(), edits, sorted[i]);
    }
  }

  lemma {:induction false} SortingKeepsPlace<T>(edits: seq<Edit<T>>, k: nat)
    ensures Here(Sorted(Descending(), edits), k) == Here(edits, k)
  {
    SortedIsStable(Descending(), edits, -(k as real));
  }

  lemma {:induction false} SortingKeepsFrom<T>(lines: seq<T>, edits: seq<Edit<T>>, sorted: seq<Edit<T>>, k: nat)
    requires k <= |lines| && sorted == Sorted(Descending(), edits)
    ensures From(lines, sorted, k) == From(lines, edits, k)
    decreases |lines| - k
  {
    SortingKeepsPlace(edits, k);
    if k < |lines| {
      SortingKeepsFrom(lines, edits, sorted, k + 1);
    }
  }

  /** Bottom-up insertion is insertion of everything at once in original line coordinates. */
  lemma {:induction false} BottomUpIsAtOnce<T>(lines: seq<T>, edits: seq<Edit<T>>)
    requires Within(lines, edits)
    ensures Applied(lines, edits) == AtOnce(lines, edits)
  {
    SortedIsOrdered(Descending(), edits);
    SortedStaysWithin(lines, edits);
    DescendingAtOnce(lines, Sorted(Descending(), edits));
    SortingKeepsFrom(lines, edits, Sorted(Descending(), edits), 0);
  }

  /* ---------------- nothing lost, nothing extra ---------------- */

  function Kept<T>(lines: seq<T>, keep: T -> bool): seq<T> {
    if lines == [] then []
    else Kept(lines[..|lines| - 1], keep) + if keep(lines[|lines| - 1]) then [lines[|lines| - 1]] else []
  }

  lemma {:induction false} KeptJoins<T>(a: seq<T>, b: seq<T>, keep: T -> bool)
    ensures Kept(a + b, keep) == Kept(a, keep) + Kept(b, keep)
  {
    if b == [] {
      assert a + b == a;
    } else {
      KeptJoins(a, b[..|b| - 1], keep);
      assert (a + b)[..|a + b| - 1] == a + b[..|b| - 1];
    }
  }

  lemma {:induction false} SpliceKeepsOthers<T>(lines: seq<T>, start: int, x: T, keep: T -> bool)
    requires !keep(x)
    ensures Kept(Splice(lines, start, x), keep) == Kept(lines, keep)
  {
    var at := Place(lines, start);
    KeptJoins(lines[..at] + [x], lines[at..], keep);
    KeptJoins(lines[..at], [x], keep);
    KeptJoins(lines[..at], lines[at..], keep);
    assert lines == lines[..at] + lines[at..];
    assert [x][..0] == [];
  }

  lemma {:induction false} SpliceAllKeepsOthers<T>(lines: seq<T>, edits: seq<Edit<T>>, keep: T -> bool)
    requires forall i | 0 <= i < |edits| :: !keep(edits[i].insert)
    ensures Kept(SpliceAll(lines, edits), keep) == Kept(lines, keep)
  {
    if edits != [] {
      var front, last := edits[..|edits| - 1], edits[|edits| - 1];
      SpliceAllKeepsOthers(lines, front, keep);
      SpliceKeepsOthers(SpliceAll(lines, front), last.afterLine, last.insert, keep);
    }
  }

  lemma {:induction false} AllKept<T>(lines: seq<T>, keep: T -> bool)
    requires forall i | 0 <= i < |lines| :: keep(lines[i])
    ensures Kept(lines, keep) == lines
  {
    if lines != [] {
      AllKept(lines[..|lines| - 1], keep);
    }
  }

  /** Deleting the inserts gives back the original lines, wherever the edits point. */
  lemma {:induction false} DeletingInsertsRestores<T>(lines: seq<T>, edits: seq<Edit<T>>, inserted: T -> bool)
    requires forall i | 0 <= i < |lines| :: !inserted(lines[i])
    requires forall i | 0 <= i < |edits| :: inserted(edits[i].insert)
    ensures Kept(Applied(lines, edits), (x: T) => !inserted(x)) == lines
  {
    var sorted := Sorted(Descending(), edits);
    forall i | 0 <= i < |sorted|
      ensures inserted(sorted[i].insert)
    {
      SameElements(Descending(), edits, sorted[i]);
    }
    SpliceAllKeepsOthers(lines, sorted, (x: T) => !inserted(x));
    AllKept(lines, (x: T) => !inserted(x));
  }

  /* ---------------- edits past the end of the file ---------------- */

  ghost predicate NoNegative<T>(edits: seq<Edit<T>>) {
    forall i | 0 <= i < |edits| :: 0 <= edits[i].afterLine
  }

  /** The edits within a file of n lines, and those past its end, as listed. */
  function Inside<T>(n: nat, edits: seq<Edit<T>>): (r: seq<Edit<T>>)
    ensures forall i | 0 <= i < |r| :: r[i].afterLine <= n
  {
    if edits == [] then []
    else
      var last := edits[|edits| - 1];
      Inside(n, edits[..|edits| - 1]) + if last.afterLine <= n then [last] else []
  }

  function Beyond<T>(n: nat, edits: seq<Edit<T>>): (r: seq<Edit<T>>)
    ensures forall i | 0 <= i < |r| :: n < r[i].afterLine
  {
    if edits == [] then []
    else
      var last := edits[|edits| - 1];
      Beyond(n, edits[..|edits| - 1]) + if n < last.afterLine then [last] else []
  }

  /** What the edits past the end of n lines leave after the last line. */
  function Tail<T>(n: nat, edits: seq<Edit<T>>): (r: seq<T>)
    ensures |r| == |edits|
  {
    if edits == [] then []
    else
      var last := edits[|edits| - 1];
      Splice(Tail(n, edits[..|edits| - 1]), last.afterLine - n, last.insert)
  }

  lemma {:induction false} InsideOneMore<T>(n: nat, edits: seq<Edit<T>>, e: Edit<T>)
    ensures Inside(n, edits + [e]) == Inside(n, edits) + if e.afterLine <= n then [e] else []
  {
    assert (edits + [e])[..|edits|] == edits;
  }

  /** One more edit: what stands at place k comes from within the file. */
  lemma {:induction false} OneMoreInside<T>(n: nat, edits: seq<Edit<T>>, e: Edit<T>, all: seq<Edit<T>>, k: nat)
    requires k <= n && Here(Inside(n, edits), k) == Here(edits, k)
    requires all == edits + [e]
    ensures Here(Inside(n, all), k) == Here(all, k)
  {
    InsideOneMore(n, edits, e);
    HereOneMore(edits, e, k);
    if e.afterLine <= n {
      HereOneMore(Inside(n, edits), e, k);
    } else {
      assert Inside(n, edits) + [] == Inside(n, edits);
    }
  }

  lemma {:induction false} WithinFromInside<T>(n: nat, edits: seq<Edit<T>>, k: nat)
    requires k <= n
    ensures Here(Inside(n, edits), k) == Here(edits, k)
  {
    if edits == [] {
      assert Inside(n, edits) == edits;
    } else {
      WithinFromInside(n, edits[..|edits| - 1], k);
      OneMoreInside(n, edits[..|edits| - 1], edits[|edits| - 1], edits, k);
    }
  }

  lemma {:induction false} InsideFrom<T>(lines: seq<T>, edits: seq<Edit<T>>, k: nat)
    requires k <= |lines|
    ensures From(lines, Inside(|lines|, edits), k) == From(lines, edits, k)
    decreases |lines| - k
  {
    WithinFromInside(|lines|, edits, k);
    if k < |lines| {
      InsideFrom(lines, edits, k + 1);
    }
  }

  lemma {:induction false} NoneInside<T>(n: nat, edits: seq<Edit<T>>)
    requires forall i | 0 <= i < |edits| :: n < edits[i].afterLine
    ensures Inside(n, edits) == []
  {
    if edits != [] {
      NoneInside(n, edits[..|edits| - 1]);
    }
  }

  /** In descending order, where the last edit is past the end, all are. */
  lemma {:induction false} AllBeyond<T>(n: nat, edits: seq<Edit<T>>)
    requires Ordered(Descending(), edits) && edits != [] && n < edits[|edits| - 1].afterLine
    ensures Inside(n, edits[..|edits| - 1]) == []
  {
    var front := edits[..|edits| - 1];
    forall i | 0 <= i < |front|
      ensures n < front[i].afterLine
    {
      LastIsLowest(edits, i);
    }
    NoneInside(n, front);
  }

  lemma {:induction false} LastJoins<T>(late: seq<T>, inside: seq<T>, last: T, isLate: bool, all: seq<T>)
    requires all == late + inside + [last] && (isLate ==> inside == [])
    ensures all == (late + if isLate then [last] else []) + (inside + if isLate then [] else [last])
  {
  }

  /** In descending order the edits past the end come first. */
  lemma {:induction false} BeyondFirst<T>(n: nat, edits: seq<Edit<T>>)
    requires Ordered(Descending(), edits)
    ensures edits == Beyond(n, edits) + Inside(n, edits)
  {
    if edits != [] {
      var front, last := edits[..|edits| - 1], edits[|edits| - 1];
      BeyondFirst(n, front);
      if n < last.afterLine {
        AllBeyond(n, edits);
      }
      LastJoins(Beyond(n, front), Inside(n, front), last, n < last.afterLine, edits);
    }
  }

  lemma {:induction false} SpliceJoin<T>(a: seq<T>, edits: seq<Edit<T>>, more: seq<Edit<T>>)
    ensures SpliceAll(a, edits + more) == SpliceAll(SpliceAll(a, edits), more)
  {
    if more == [] {
      assert edits + more == edits;
    } else {
      SpliceJoin(a, edits, more[..|more| - 1]);
      assert (edits + more)[..|edits + more| - 1] == edits + more[..|more| - 1];
    }
  }

  /** Edits past the end only build the tail. */
  lemma {:induction false} BeyondBuildsTail<T>(lines: seq<T>, edits: seq<Edit<T>>)
    requires forall i | 0 <= i < |edits| :: |lines| < edits[i].afterLine
    ensures SpliceAll(lines, edits) == lines + Tail(|lines|, edits)
  {
    if edits != [] {
      var front, last := edits[..|edits| - 1], edits[|edits| - 1];
      BeyondBuildsTail(lines, front);
      SpliceRight(lines, Tail(|lines|, front), last.afterLine - |lines|, last.insert);
    }
  }

  lemma {:induction false} SpliceRight<T>(a: seq<T>, b: seq<T>, start: int, x: T)
    requires 0 < start
    ensures Splice(a + b, |a| + start, x) == a + Splice(b, start, x)
  {
    var at := Place(b, start);
    assert (a + b)[..|a| + at] == a + b[..at];
  }

  lemma {:induction false} SpliceLeft<T>(a: seq<T>, b: seq<T>, start: nat, x: T)
    requires start <= |a|
    ensures Splice(a + b, start, x) == Splice(a, start, x) + b
  {
    assert (a + b)[start..] == a[start..] + b;
  }

  /** Edits within the file leave the tail alone. */
  lemma {:induction false} InsideLeavesTail<T>(lines: seq<T>, tail: seq<T>, edits: seq<Edit<T>>)
    requires Within(lines, edits)
    ensures SpliceAll(lines + tail, edits) == SpliceAll(lines, edits) + tail
  {
    if edits != [] {
      var front, last := edits[..|edits| - 1], edits[|edits| - 1];
      InsideLeavesTail(lines, tail, front);
      SpliceLeft(SpliceAll(lines, front), tail, last.afterLine, last.insert);
    }
  }

  /** The edits past the end, by descending afterLine, ties in list order. */
  function Late<T>(lines: seq<T>, edits: seq<Edit<T>>): seq<Edit<T>> {
    Beyond(|lines|, Sorted(Descending(), edits))
  }

  lemma {:induction false} SplitAtTheEnd<T>(lines: seq<T>, edits: seq<Edit<T>>, sorted: seq<Edit<T>>)
    requires sorted == Sorted(Descending(), edits) && NoNegative(sorted)
    ensures SpliceAll(lines, sorted) == AtOnce(lines, sorted) + Tail(|lines|, Late(lines, edits))
  {
    var late, inside := Beyond(|lines|, sorted), Inside(|lines|, sorted);
    SortedIsOrdered(Descending(), edits);
    BeyondFirst(|lines|, sorted);
    assert inside == sorted[|late|..];
    LateThenInside(lines, late, inside);
    DescendingAtOnce(lines, inside);
    InsideFrom(lines, sorted, 0);
  }

  lemma {:induction false} LateThenInside<T>(lines: seq<T>, late: seq<Edit<T>>, inside: seq<Edit<T>>)
    requires Within(lines, inside) && forall i | 0 <= i < |late| :: |lines| < late[i].afterLine
    ensures SpliceAll(lines, late + inside) == SpliceAll(lines, inside) + Tail(|lines|, late)
  {
    SpliceJoin(lines, late, inside);
    BeyondBuildsTail(lines, late);
    InsideLeavesTail(lines, Tail(|lines|, late), inside);
  }

  /**
   * Whatever the edits: those within the file are inserted at once in original coordinates, and those
   * past its end make up a tail of their own after the last line.
   */
  lemma {:induction false} AppliedExactly<T>(lines: seq<T>, edits: seq<Edit<T>>)
    requires NoNegative(edits)
    ensures Applied(lines, edits) == AtOnce(lines, Inside(|lines|, edits)) + Tail(|lines|, Late(lines, edits))
  {
    var sorted := Sorted(Descending(), edits);
    forall i | 0 <= i < |sorted|
      ensures 0 <= sorted[i].afterLine
    {
      SameElements(Descending(), edits, sorted[i]);
    }
    SplitAtTheEnd(lines, edits, sorted);
    SortingKeepsFrom(lines, edits, sorted, 0);
    InsideFrom(lines, edits, 0);
  }

  function Inserts<T>(edits: seq<Edit<T>>): (r: seq<T>)
    ensures |r| == |edits|
    ensures forall i | 0 <= i < |r| :: r[i] == edits[i].insert
  {
    seq(|edits|, i requires 0 <= i < |edits| => edits[i].insert)
  }

  /* ---------------- which edit's insert stands where in the tail ---------------- */

  /** The edits with their places in the list for inserts. */
  function Places<T>(edits: seq<Edit<T>>): (r: seq<Edit<nat>>)
    ensures |r| == |edits|
    ensures forall i | 0 <= i < |r| :: r[i] == Edit(edits[i].afterLine, i)
  {
    seq(|edits|, i requires 0 <= i < |edits| => Edit(edits[i].afterLine, i))
  }

  /** The places in the list of the edits whose inserts make up the tail, in the order of the tail. */
  function TailOrder<T>(n: nat, edits: seq<Edit<T>>): (r: seq<nat>)
    ensures |r| == |edits|
  {
    Tail(n, Places(edits))
  }

  function Upwards(m: nat): (r: seq<nat>)
    ensures |r| == m && forall i | 0 <= i < m :: r[i] == i
  {
    seq(m, i => i)
  }

  /** Each text is the insert of the edit at the labelled place. */
  ghost predicate Labels<T>(edits: seq<Edit<T>>, labels: seq<nat>, texts: seq<T>) {
    && |labels| == |texts|
    && forall j | 0 <= j < |labels| :: labels[j] < |edits| && texts[j] == edits[labels[j]].insert
  }

  lemma {:induction false} SpliceKeepsLabels<T>(edits: seq<Edit<T>>, labels: seq<nat>, texts: seq<T>, start: int,
                                                e: nat)
    requires Labels(edits, labels, texts) && e < |edits|
    ensures Labels(edits, Splice(labels, start, e), Splice(texts, start, edits[e].insert))
  {
    assert Place(labels, start) == Place(texts, start);
  }

  lemma {:induction false} LabelsOfFront<T>(edits: seq<Edit<T>>, m: nat, labels: seq<nat>, texts: seq<T>)
    requires m <= |edits| && Labels(edits[..m], labels, texts)
    ensures Labels(edits, labels, texts)
  {
    assert forall j | 0 <= j < |labels| :: edits[labels[j]] == edits[..m][labels[j]];
  }

  /** Labels stand where texts do. */
  lemma {:induction false} TailIsOrdered<T>(n: nat, edits: seq<Edit<T>>)
    ensures Labels(edits, TailOrder(n, edits), Tail(n, edits))
  {
    if edits != [] {
      var m := |edits| - 1;
      TailIsOrdered(n, edits[..m]);
      LabelsOfFront(edits, m, TailOrder(n, edits[..m]), Tail(n, edits[..m]));
      assert Places(edits)[..m] == Places(edits[..m]);
      SpliceKeepsLabels(edits, TailOrder(n, edits[..m]), Tail(n, edits[..m]), edits[m].afterLine - n, m);
    }
  }

  /**
   * The tail is in descending order, ties in list order, exactly when the k-th edit past the end points
   * at least k lines past it: one that points less far is spliced in before an earlier one.
   */
  lemma {:induction false} TailDescendsExactly<T>(n: nat, edits: seq<Edit<T>>)
    requires forall i | 0 <= i < |edits| :: n < edits[i].afterLine
    ensures TailOrder(n, edits) == Upwards(|edits|) <==> forall k | 0 <= k < |edits| :: n + k <= edits[k].afterLine
    ensures TailOrder(n, edits) == Upwards(|edits|) ==> Tail(n, edits) == Inserts(edits)
  {
    TailIsOrdered(n, edits);
    if edits != [] {
      var m := |edits| - 1;
      TailDescendsExactly(n, edits[..m]);
      LastOfTail(n, edits, m);
    }
  }

  lemma {:induction false} LastOfTail<T>(n: nat, edits: seq<Edit<T>>, m: nat)
    requires |edits| == m + 1 && n < edits[m].afterLine
    ensures TailOrder(n, edits) == Upwards(m + 1)
       <==> TailOrder(n, edits[..m]) == Upwards(m) && n + m <= edits[m].afterLine
  {
    var before, start := TailOrder(n, edits[..m]), edits[m].afterLine - n;
    assert Places(edits)[..m] == Places(edits[..m]);
    assert Upwards(m + 1) == Upwards(m) + [m];
    if m <= start {
      assert TailOrder(n, edits) == before + [m];
      assert (before + [m])[..m] == before;
    } else {
      assert TailOrder(n, edits)[start] == m;
    }
  }

  lemma {:induction false} TailStartsWithFirst<T>(n: nat, edits: seq<Edit<T>>)
    requires edits != [] && forall i | 0 <= i < |edits| :: n < edits[i].afterLine
    ensures TailOrder(n, edits)[0] == 0
  {
    var m := |edits| - 1;
    assert Places(edits)[..m] == Places(edits[..m]);
    if 0 < m {
      TailStartsWithFirst(n, edits[..m]);
    } else {
      assert Tail(n, Places(edits[..m])) == [];
    }
  }

  function Downwards(m: nat): (r: seq<nat>)
    ensures |r| == m && forall i | 0 <= i < m :: r[i] == m - 1 - i
  {
    seq(m, i requires 0 <= i < m => m - 1 - i)
  }

  /** Every insert in the order of its coordinate, ties in reverse list order, past the end as within the file. */
  function InCoordinateOrder<T>(lines: seq<T>, edits: seq<Edit<T>>): seq<T> {
    AtOnce(lines, Inside(|lines|, edits)) + Reversed(Late(lines, edits))
  }

  lemma {:induction false} NoneLate<T>(n: nat, late: seq<Edit<T>>)
    requires |late| <= 1
    ensures TailOrder(n, late) == Downwards(|late|) && Tail(n, late) == Reversed(late)
  {
    if |late| == 1 {
      assert late == [late[0]] && Places(late) == [Edit(late[0].afterLine, 0)];
      OneLate(n, late[0]);
      OneLate(n, Places(late)[0]);
    }
  }

  /**
   * Past the end the inserts keep coordinate order, ties in reverse list order as within the file, exactly
   * when at most one edit points there; the whole file is then in coordinate order.
   */
  lemma {:induction false} AtOnceExactly<T>(lines: seq<T>, edits: seq<Edit<T>>)
    requires NoNegative(edits)
    ensures var late := Late(lines, edits); TailOrder(|lines|, late) == Downwards(|late|) <==> |late| <= 1
    ensures |Late(lines, edits)| <= 1 ==> Applied(lines, edits) == InCoordinateOrder(lines, edits)
  {
    var late := Late(lines, edits);
    AppliedExactly(lines, edits);
    if |late| <= 1 {
      NoneLate(|lines|, late);
    } else {
      TailStartsWithFirst(|lines|, late);
      assert Downwards(|late|)[0] != 0;
    }
  }

  lemma {:induction false} OneLate<T>(n: nat, e: Edit<T>)
    ensures Tail(n, [e]) == [e.insert] && Reversed([e]) == [e.insert]
  {
    assert [e][..0] == [];
  }

  /** Texts that differ show it: with different first and last late inserts the file is not in coordinate order. */
  lemma {:induction false} OrderIsLost<T>(lines: seq<T>, edits: seq<Edit<T>>)
    requires NoNegative(edits) && 1 < |Late(lines, edits)|
    requires var late := Late(lines, edits); late[0].insert != late[|late| - 1].insert
    ensures Applied(lines, edits) != InCoordinateOrder(lines, edits)
  {
    var late, inside := Late(lines, edits), AtOnce(lines, Inside(|lines|, edits));
    AppliedExactly(lines, edits);
    TailStartsWithFirst(|lines|, late);
    TailIsOrdered(|lines|, late);
    ReversedStartsWithLast(late);
    assert (inside + Tail(|lines|, late))[|inside|] == late[0].insert;
    assert (inside + Reversed(late))[|inside|] == late[|late| - 1].insert;
  }

  lemma {:induction false} ReversedStartsWithLast<T>(edits: seq<Edit<T>>)
    requires edits != []
    ensures Reversed(edits) != [] && Reversed(edits)[0] == edits[|edits| - 1].insert
  {
  }

  /** Past the end of the file coordinates lose their meaning: line 5's insert comes out above line 3's. */
  lemma {:induction false} PastTheEndOrderIsLost(line: string, five: string, three: string)
    ensures Applied([line], [Edit(5, five), Edit(3, three)]) == [line, five, three]
  {
    var edits := [Edit(5, five), Edit(3, three)];
    assert edits[..1] == [edits[0]];
    assert [edits[0]][..0] == [];
    assert Sorted(Descending(), [edits[0]]) == [edits[0]];
    assert Sorted(Descending(), edits) == edits;
    assert SpliceAll([line], [edits[0]]) == [line, five];
  }
}
