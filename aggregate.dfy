/** The fan-out and merge that the two summarising stages share: the work
    list is cut into consecutive batches, the tasks of one batch report in
    whatever order they finish, the usable reports are collected, and at the
    end they are sorted back into input order and joined. */
module Aggregate {
  import opened Common
  import opened Text

  /** What a worker returns: `(idx, md_text or None, error text or None)`. */
  datatype Outcome = Outcome(index: int, text: Option<string>, error: Option<string>)

  /** How a submitted task ended: `future.result()` gave an outcome, or the
      task raised and `future.result()` re-raised its exception. */
  datatype TaskResult = Returned(outcome: Outcome) | Faulted(message: string)

  /** One element of `results`: the pair `(ret_idx, md_text)`. */
  datatype Entry = Entry(index: int, text: Option<string>)

  // ---------------------------------------------------------------------
  // The work list

  /** `[line.strip() for line in f if line.strip()]` */
  function NonBlankLines(lines: seq<string>): (urls: seq<string>)
    ensures forall u :: u in urls ==> !IsBlank(u) && StripSpace(u) == u
    ensures |urls| <= |lines|
  {
    if |lines| == 0 then []
    else
      var rest := NonBlankLines(lines[..|lines| - 1]);
      var u := StripSpace(lines[|lines| - 1]);
      StripIdempotent(lines[|lines| - 1]);
      if u == "" then rest
      else
        InAppend(rest, u);
        rest + [u]
  }

  /** The list comprehension reads the file line by line: the lines of
      `a + b` give the URLs of `a` followed by those of `b`, ... */
  lemma {:induction false} NonBlankLinesConcat(a: seq<string>, b: seq<string>)
    ensures NonBlankLines(a + b) == NonBlankLines(a) + NonBlankLines(b)
    decreases |b|
  {
    if |b| == 0 {
      assert a + b == a;
    } else {
      assert (a + b)[..|a + b| - 1] == a + b[..|b| - 1];
      assert (a + b)[|a + b| - 1] == b[|b| - 1];
      NonBlankLinesConcat(a, b[..|b| - 1]);
    }
  }

  /** ... and one line gives its stripped text unless that is empty. So
      every non-blank line is kept, in file order, repeats included. */
  lemma NonBlankLinesOne(line: string)
    ensures NonBlankLines([line]) == if StripSpace(line) == "" then [] else [StripSpace(line)]
  {
    assert [line][..0] == [];
  }

  /** An element of `rest + [u]` is `u` or an element of `rest`. */
  lemma InAppend<T>(rest: seq<T>, u: T)
    ensures forall v :: v in rest + [u] ==> v in rest || v == u
  {
  }

  lemma StripIdempotent(s: string)
    ensures StripSpace(StripSpace(s)) == StripSpace(s)
  {
    var l := TrimStart(s, Whitespace);
    var r := TrimEnd(l, Whitespace);
    assert TrimStart(r, Whitespace) == r by {
      if |r| > 0 {
        assert r[0] == l[0];
      }
    }
  }

  // ---------------------------------------------------------------------
  // Batches

  /** `math.ceil(total / size)` */
  function BatchCount(total: nat, size: nat): (c: nat)
    requires size >= 1
    ensures total <= c * size
    ensures c > 0 ==> (c - 1) * size < total
  {
    (total + size - 1) / size
  }

  lemma MulMono(a: nat, b: nat, size: nat)
    requires a <= b
    ensures a * size <= b * size
  {
  }

  /** `items[k * size : min((k + 1) * size, len(items))]`: batch `k` is a
      non-empty run of at most `size` consecutive items starting at
      position `k * size`. */
  function BatchOf<T>(items: seq<T>, size: nat, k: nat): (b: seq<T>)
    requires size >= 1 && k < BatchCount(|items|, size)
    ensures 1 <= |b| <= size
    ensures k * size + |b| <= |items|
    ensures forall i :: 0 <= i < |b| ==> b[i] == items[k * size + i]
  {
    MulMono(k, BatchCount(|items|, size) - 1, size);
    items[k * size .. Min((k + 1) * size, |items|)]
  }

  /** All batches, in the order the batch loop visits them. */
  function Batches<T>(items: seq<T>, size: nat): (bs: seq<seq<T>>)
    requires size >= 1
    ensures |bs| == BatchCount(|items|, size)
  {
    seq(BatchCount(|items|, size), k requires 0 <= k < BatchCount(|items|, size) => BatchOf(items, size, k))
  }

  /** The concatenation of a sequence of sequences. */
  function Flatten<T>(ss: seq<seq<T>>): seq<T> {
    if |ss| == 0 then [] else Flatten(ss[..|ss| - 1]) + ss[|ss| - 1]
  }

  /** The batches partition the work list: read one after the other they
      give back every item exactly once and in order. */
  lemma {:induction false} BatchesPartition<T>(items: seq<T>, size: nat)
    requires size >= 1
    ensures Flatten(Batches(items, size)) == items
  {
    var bs := Batches(items, size);
    BatchesPrefix(items, size, |bs|);
    assert bs[..|bs|] == bs;
  }

  lemma {:induction false} BatchesPrefix<T>(items: seq<T>, size: nat, k: nat)
    requires size >= 1 && k <= BatchCount(|items|, size)
    ensures Flatten(Batches(items, size)[..k]) == items[..Min(k * size, |items|)]
  {
    if k > 0 {
      var bs := Batches(items, size);
      BatchesPrefix(items, size, k - 1);
      var lo, hi := BatchSlice(items, size, k);
      assert bs[..k][..k - 1] == bs[..k - 1];
      assert Flatten(bs[..k]) == Flatten(bs[..k - 1]) + bs[k - 1];
      assert items[..hi] == items[..lo] + items[lo .. hi];
    }
  }

  /** Batch `k - 1` is the slice from the end of the first `k - 1` batches
      to the end of the first `k`. */
  lemma BatchSlice<T>(items: seq<T>, size: nat, k: nat) returns (lo: nat, hi: nat)
    requires size >= 1 && 0 < k <= BatchCount(|items|, size)
    ensures lo == Min((k - 1) * size, |items|) && hi == Min(k * size, |items|) && lo <= hi
    ensures Batches(items, size)[k - 1] == items[lo .. hi]
  {
    MulMono(k - 1, BatchCount(|items|, size) - 1, size);
    lo, hi := (k - 1) * size, Min(k * size, |items|);
    assert lo + size == k * size;
  }

  // ---------------------------------------------------------------------
  // Collecting the reports of the batches

  /** The concatenation of `f(x)` for the elements `x` of `s`, in order. */
  function FlatMap<T, U>(f: T -> seq<U>, s: seq<T>): seq<U> {
    if |s| == 0 then [] else FlatMap(f, s[..|s| - 1]) + f(s[|s| - 1])
  }

  lemma {:induction false} FlatMapConcat<T, U>(f: T -> seq<U>, a: seq<T>, b: seq<T>)
    ensures FlatMap(f, a + b) == FlatMap(f, a) + FlatMap(f, b)
    decreases |b|
  {
    if |b| == 0 {
      assert a + b == a;
    } else {
      assert (a + b)[..|a + b| - 1] == a + b[..|b| - 1];
      FlatMapConcat(f, a, b[..|b| - 1]);
    }
  }

  /** What is kept from the reports does not depend on the order in which
      they arrive, up to reordering. */
  lemma {:induction false} FlatMapPermutation<T, U>(f: T -> seq<U>, a: seq<T>, b: seq<T>)
    requires multiset(a) == multiset(b)
    ensures multiset(FlatMap(f, a)) == multiset(FlatMap(f, b))
    decreases |a|
  {
    if |a| == 0 {
      assert |b| == |multiset(b)| == 0;
    } else {
      var x := a[|a| - 1];
      var a' := a[..|a| - 1];
      assert a == a' + [x];
      assert x in multiset(b);
      var i :| 0 <= i < |b| && b[i] == x;
      var b' := b[..i] + b[i + 1..];
      assert b == b[..i] + [x] + b[i + 1..];
      assert multiset(b) == multiset(b[..i]) + multiset{x} + multiset(b[i + 1..]);
      assert multiset(b') == multiset(b) - multiset{x};
      assert multiset(a') == multiset(a) - multiset{x};
      FlatMapPermutation(f, a', b');
      FlatMapRemove(f, b, i);
    }
  }

  /** Taking one element out of `b` takes its part out of the flat map, up
      to reordering. */
  lemma FlatMapRemove<T, U>(f: T -> seq<U>, b: seq<T>, i: nat)
    requires i < |b|
    ensures multiset(FlatMap(f, b)) == multiset(FlatMap(f, b[..i] + b[i + 1..])) + multiset(f(b[i]))
  {
    var x, p, q := b[i], b[..i], b[i + 1..];
    SplitAround(b, i);
    FlatMapConcat(f, p + [x], q);
    SnocParts(p, x);
    var fp, fq := FlatMap(f, p), FlatMap(f, q);
    assert FlatMap(f, p + [x]) == fp + f(x);
    assert FlatMap(f, b) == fp + f(x) + fq;
    FlatMapConcat(f, p, q);
    assert FlatMap(f, p + q) == fp + fq;
    assert multiset(fp + f(x) + fq) == multiset(fp) + multiset(f(x)) + multiset(fq);
    assert multiset(fp + fq) == multiset(fp) + multiset(fq);
  }

  /** `arrivals[k]` is an order in which the tasks of batch `k` can finish:
      any reordering of that batch. */
  ghost predicate IsCompletionOrder<T>(tasks: seq<T>, size: nat, arrivals: seq<seq<T>>)
    requires size >= 1
  {
    |arrivals| == BatchCount(|tasks|, size)
    && forall k :: 0 <= k < |arrivals| ==> multiset(arrivals[k]) == multiset(BatchOf(tasks, size, k))
  }

  /** Whatever order the tasks of each batch finish in, the reports read
      batch after batch are the tasks, each exactly once. */
  lemma {:induction false} ArrivalsArePermutation<T>(tasks: seq<T>, size: nat, arrivals: seq<seq<T>>)
    requires size >= 1 && IsCompletionOrder(tasks, size, arrivals)
    ensures multiset(Flatten(arrivals)) == multiset(tasks)
  {
    var bs := Batches(tasks, size);
    ArrivalsPrefix(tasks, size, arrivals, |arrivals|);
    assert arrivals[..|arrivals|] == arrivals;
    assert bs[..|bs|] == bs;
    BatchesPartition(tasks, size);
  }

  lemma {:induction false} ArrivalsPrefix<T>(tasks: seq<T>, size: nat, arrivals: seq<seq<T>>, k: nat)
    requires size >= 1
    requires |arrivals| == BatchCount(|tasks|, size) && k <= |arrivals|
    requires forall k :: 0 <= k < |arrivals| ==> multiset(arrivals[k]) == multiset(BatchOf(tasks, size, k))
    ensures multiset(Flatten(arrivals[..k])) == multiset(Flatten(Batches(tasks, size)[..k]))
  {
    if k > 0 {
      var bs := Batches(tasks, size);
      ArrivalsPrefix(tasks, size, arrivals, k - 1);
      assert arrivals[..k][..k - 1] == arrivals[..k - 1];
      assert bs[..k][..k - 1] == bs[..k - 1];
    }
  }

  /** The batch loop of `main`: for each batch in turn, read the reports of
      its tasks in the order given by `arrivals` (the order `as_completed`
      yields them, any reordering of the batch) and append what `keep`
      retains of each. The result is the kept reports in arrival order, and
      up to reordering it is what the tasks give in input order. */
  method Collect<T, U>(tasks: seq<T>, size: nat, arrivals: seq<seq<T>>, keep: T -> seq<U>)
    returns (results: seq<U>)
    requires size >= 1 && IsCompletionOrder(tasks, size, arrivals)
    ensures results == FlatMap(keep, Flatten(arrivals))
    ensures multiset(results) == multiset(FlatMap(keep, tasks))
  {
    results := [];
    var k := 0;
    while k < |arrivals|
      invariant 0 <= k <= |arrivals|
      invariant results == FlatMap(keep, Flatten(arrivals[..k]))
    {
      ghost var done := Flatten(arrivals[..k]);
      results := CollectBatch(results, arrivals[k], keep);
      FlatMapConcat(keep, done, arrivals[k]);
      assert arrivals[..k + 1][..k] == arrivals[..k];
      k := k + 1;
    }
    assert arrivals[..|arrivals|] == arrivals;
    ArrivalsArePermutation(tasks, size, arrivals);
    FlatMapPermutation(keep, Flatten(arrivals), tasks);
  }

  /** The inner loop over the reports of one batch, in arrival order. */
  method CollectBatch<T, U>(results: seq<U>, batch: seq<T>, keep: T -> seq<U>) returns (extended: seq<U>)
    ensures extended == results + FlatMap(keep, batch)
  {
    extended := results;
    var j := 0;
    while j < |batch|
      invariant 0 <= j <= |batch|
      invariant extended == results + FlatMap(keep, batch[..j])
    {
      assert batch[..j + 1][..j] == batch[..j];
      extended := extended + keep(batch[j]);
      j := j + 1;
    }
    assert batch[..|batch|] == batch;
  }

  /** What `main` appends to `results` for one finished task: the pair
      `(ret_idx, md_text)` when the task returned and its error text is empty
      or None; nothing for a task that raised or reported an error. */
  function Kept(r: TaskResult): (e: seq<Entry>)
    ensures |e| <= 1
    ensures |e| == 1 <==> r.Returned? && (r.outcome.error == None || r.outcome.error == Some(""))
    ensures |e| == 1 ==> e[0] == Entry(r.outcome.index, r.outcome.text)
  {
    match r
    case Faulted(_) => []
    case Returned(Outcome(idx, text, err)) =>
      if err.Some? && err.value != "" then [] else [Entry(idx, text)]
  }

  // ---------------------------------------------------------------------
  // Sorting back into input order

  predicate Sorted(s: seq<Entry>) {
    forall i, j :: 0 <= i < j < |s| ==> s[i].index <= s[j].index
  }

  predicate StrictlySorted(s: seq<Entry>) {
    forall i, j :: 0 <= i < j < |s| ==> s[i].index < s[j].index
  }

  /** Places `e` into the sorted `s` after every entry whose index is not
      larger: one step of a stable insertion sort. */
  function Insert(s: seq<Entry>, e: Entry): (r: seq<Entry>)
    requires Sorted(s)
    ensures Sorted(r)
    ensures multiset(r) == multiset(s) + multiset{e}
    decreases |s|
  {
    if |s| == 0 then [e]
    else if s[|s| - 1].index <= e.index then s + [e]
    else
      var init, last := s[..|s| - 1], s[|s| - 1];
      var r' := Insert(init, e);
      assert s == init + [last];
      forall x | x in r' ensures x.index <= last.index {
        assert x in multiset(r');
        if x != e {
          assert x in multiset(init);
        }
      }
      AppendSorted(r', last);
      r' + [last]
  }

  lemma AppendSorted(s: seq<Entry>, e: Entry)
    requires Sorted(s)
    requires forall x :: x in s ==> x.index <= e.index
    ensures Sorted(s + [e])
  {
    forall i, j | 0 <= i < j < |s| + 1 ensures (s + [e])[i].index <= (s + [e])[j].index {
      if j == |s| {
        assert s[i] in s;
      }
    }
  }

  /** `results.sort(key=lambda x: x[0])`: a stable sort by index. */
  function SortByIndex(s: seq<Entry>): (r: seq<Entry>)
    ensures Sorted(r)
    ensures multiset(r) == multiset(s)
  {
    if |s| == 0 then []
    else
      assert s == s[..|s| - 1] + [s[|s| - 1]];
      Insert(SortByIndex(s[..|s| - 1]), s[|s| - 1])
  }

  /** A sorted sequence that is a reordering of a strictly sorted one is that
      sequence: when the indices are distinct, sorting restores one order
      only. */
  lemma {:induction false} SortedPermutationUnique(x: seq<Entry>, y: seq<Entry>)
    requires Sorted(x) && StrictlySorted(y)
    requires multiset(x) == multiset(y)
    ensures x == y
    decreases |x|
  {
    if |x| == 0 {
      assert |y| == |multiset(y)| == 0;
    } else {
      assert |y| == |multiset(y)| == |x|;
      var n := |x| - 1;
      LastAgrees(x, y);
      MultisetFront(x, y);
      SortedFront(x);
      StrictlySortedFront(y);
      SortedPermutationUnique(x[..n], y[..n]);
      SnocSplit(x);
      SnocSplit(y);
    }
  }

  /** Equal multisets with equal last elements have equal fronts. */
  lemma MultisetFront(x: seq<Entry>, y: seq<Entry>)
    requires multiset(x) == multiset(y) && |x| == |y| > 0 && x[|x| - 1] == y[|y| - 1]
    ensures multiset(x[..|x| - 1]) == multiset(y[..|y| - 1])
  {
    SnocSplit(x);
    SnocSplit(y);
    assert multiset(x[..|x| - 1]) == multiset(x) - multiset{x[|x| - 1]};
    assert multiset(y[..|y| - 1]) == multiset(y) - multiset{y[|y| - 1]};
  }

  lemma SortedFront(x: seq<Entry>)
    requires Sorted(x) && |x| > 0
    ensures Sorted(x[..|x| - 1])
  {
    var f := x[..|x| - 1];
    forall a, b | 0 <= a < b < |f| ensures f[a].index <= f[b].index {
      assert f[a] == x[a] && f[b] == x[b];
    }
  }

  lemma StrictlySortedFront(y: seq<Entry>)
    requires StrictlySorted(y) && |y| > 0
    ensures StrictlySorted(y[..|y| - 1])
  {
    var f := y[..|y| - 1];
    forall a, b | 0 <= a < b < |f| ensures f[a].index < f[b].index {
      assert f[a] == y[a] && f[b] == y[b];
    }
  }

  /** The last entries of the two agree: both carry the largest index. */
  lemma LastAgrees(x: seq<Entry>, y: seq<Entry>)
    requires Sorted(x) && StrictlySorted(y)
    requires multiset(x) == multiset(y) && |x| == |y| > 0
    ensures x[|x| - 1] == y[|y| - 1]
  {
    var n := |x| - 1;
    assert x[n] in multiset(y);
    var j :| 0 <= j < |y| && y[j] == x[n];
    assert y[n] in multiset(x);
    var i :| 0 <= i < |x| && x[i] == y[n];
    assert x[i].index <= x[n].index;
  }

  /** The collected entries, sorted, are the entries in input order, whatever
      order they were collected in. */
  lemma SortRestoresOrder(results: seq<Entry>, inOrder: seq<Entry>)
    requires StrictlySorted(inOrder)
    requires multiset(results) == multiset(inOrder)
    ensures SortByIndex(results) == inOrder
  {
    SortedPermutationUnique(SortByIndex(results), inOrder);
  }

  /** When every task that returns echoes its own position as its index, the
      kept entries read in input order have strictly increasing indices,
      each naming the position of its task. */
  lemma {:induction false} KeptInOrder(tasks: seq<TaskResult>)
    requires forall i :: 0 <= i < |tasks| && tasks[i].Returned? ==> tasks[i].outcome.index == i
    ensures StrictlySorted(FlatMap(Kept, tasks))
    ensures forall e :: e in FlatMap(Kept, tasks) ==>
      0 <= e.index < |tasks| && tasks[e.index].Returned? && e.text == tasks[e.index].outcome.text
  {
    if |tasks| > 0 {
      var n := |tasks| - 1;
      var init := tasks[..n];
      assert forall i :: 0 <= i < n ==> init[i] == tasks[i];
      KeptInOrder(init);
      var pre, last := FlatMap(Kept, init), Kept(tasks[n]);
      assert FlatMap(Kept, tasks) == pre + last;
      assert forall e :: e in pre ==> e.index < n;
      forall i, j | 0 <= i < j < |pre + last| ensures (pre + last)[i].index < (pre + last)[j].index {
        if j >= |pre| && i < |pre| {
          assert pre[i] in pre;
        }
      }
    }
  }

  // ---------------------------------------------------------------------
  // Cleaning a reply

  /** The clean-up of an accepted reply: when it does not start with `#`,
      everything before its first `#` is cut off. */
  function TrimBeforeHash(md: string): string {
    if StartsWith(md, "#") then md
    else
      var h := Find(md, "#");
      if h == -1 then md else md[h..]
  }

  /** Only a `#`-free prefix is ever dropped, the result starts with `#`
      exactly when the reply contains one, and a reply without `#` or
      already starting with it is kept whole. */
  lemma TrimBeforeHashSpec(md: string)
    ensures var r := TrimBeforeHash(md);
      |r| <= |md| && r == md[|md| - |r|..]
      && '#' !in md[..|md| - |r|]
      && (StartsWith(r, "#") <==> '#' in md)
      && ('#' !in md || StartsWith(md, "#") ==> r == md)
  {
    ContainsChar(md, '#');
    FindSpec(md, "#");
    if StartsWith(md, "#") {
      assert md[0] == '#';
    } else {
      var h := Find(md, "#");
      if h != -1 {
        assert md[h..h + 1][0] == md[h];
        forall j | 0 <= j < h ensures md[j] != '#' {
          if md[j] == '#' {
            assert md[j..j + 1] == "#";
            assert OccursAt(md, "#", j);
          }
        }
        assert md[..h] == md[..|md| - |md[h..]|];
      }
    }
  }

  // ---------------------------------------------------------------------
  // Merging

  /** `[r[1] for r in results if r[1]]`: the texts that are present and not
      empty, in order. */
  function Texts(entries: seq<Entry>): (ts: seq<string>)
    ensures forall t :: t in ts ==> t != ""
    ensures forall e :: e in entries && e.text.Some? && e.text.value != "" ==> e.text.value in ts
  {
    if |entries| == 0 then []
    else
      var last := entries[|entries| - 1];
      Texts(entries[..|entries| - 1])
        + (if last.text.Some? && last.text.value != "" then [last.text.value] else [])
  }

  /** The comprehension goes through `results` in order: the texts of
      `a + b` are those of `a` followed by those of `b`, ... */
  lemma {:induction false} TextsConcat(a: seq<Entry>, b: seq<Entry>)
    ensures Texts(a + b) == Texts(a) + Texts(b)
    decreases |b|
  {
    if |b| == 0 {
      assert a + b == a;
    } else {
      assert (a + b)[..|a + b| - 1] == a + b[..|b| - 1];
      assert (a + b)[|a + b| - 1] == b[|b| - 1];
      TextsConcat(a, b[..|b| - 1]);
    }
  }

  /** ... and one entry gives its text when it is present and not empty.
      So the texts keep the order and the repeats of the entries. */
  lemma TextsOne(e: Entry)
    ensures Texts([e]) == if e.text.Some? && e.text.value != "" then [e.text.value] else []
  {
    assert [e][..0] == [];
  }

  /** The end of `main`: sort the collected entries by index, join their
      non-empty texts with blank lines, and give up (None, nothing written)
      when the merged text is empty or white space only. */
  function Merge(results: seq<Entry>): Option<string> {
    var merged := Join(Texts(SortByIndex(results)), "\n\n");
    if IsBlank(merged) then None else Some(merged)
  }

  /** The merged text is the blank-line join, in input order, of the
      non-empty texts, whatever order the entries were collected in. */
  lemma MergeInInputOrder(results: seq<Entry>, inOrder: seq<Entry>)
    requires StrictlySorted(inOrder)
    requires multiset(results) == multiset(inOrder)
    ensures Merge(results) == (if IsBlank(Join(Texts(inOrder), "\n\n")) then None
                               else Some(Join(Texts(inOrder), "\n\n")))
  {
    SortRestoresOrder(results, inOrder);
  }

  /** The merge gives nothing exactly when every text to be merged is empty
      or white space only. */
  lemma MergeNoneIffAllBlank(results: seq<Entry>)
    ensures Merge(results) == None <==> forall t :: t in Texts(SortByIndex(results)) ==> IsBlank(t)
  {
    JoinBlank(Texts(SortByIndex(results)), "\n\n");
  }

  /** A join with a white space separator is blank exactly when every part
      is. */
  lemma {:induction false} JoinBlank(parts: seq<string>, sep: string)
    requires AllSpace(sep)
    ensures IsBlank(Join(parts, sep)) <==> forall t :: t in parts ==> IsBlank(t)
    decreases |parts|
  {
    if |parts| == 1 {
      assert forall t :: t in parts ==> t == parts[0];
    } else if |parts| > 1 {
      var rest := Join(parts[1..], sep);
      JoinBlank(parts[1..], sep);
      BlankIffAllSpace(parts[0] + sep + rest);
      BlankIffAllSpace(parts[0]);
      BlankIffAllSpace(rest);
      AllSpaceConcat(parts[0] + sep, rest);
      AllSpaceConcat(parts[0], sep);
      assert forall t :: t in parts ==> t == parts[0] || t in parts[1..];
    }
  }

  /** How a run of `main` ends. */
  datatype RunEnd =
    | MissingConfig      // no API key or no default model: exit
    | MissingInput       // the input list does not exist: exit
    | NothingMerged      // nothing usable came back: no file is written
    | Wrote(merged: string)  // the merged Markdown written to the output file

  /** The merged digest described without batches or completion order: the
      blank-line join of the non-empty texts the workers returned without
      error, in input order, or nothing when that is blank. */
  function InOrderMerge(tasks: seq<TaskResult>): Option<string> {
    var merged := Join(Texts(FlatMap(Kept, tasks)), "\n\n");
    if IsBlank(merged) then None else Some(merged)
  }
}
