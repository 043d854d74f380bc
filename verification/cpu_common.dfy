/**
 What the three CPU and memory widgets share: removing brand marks from the
 CPU model name, laying the per-CPU bars out in rows, the process records
 sysinfo reports and the command line shown for a process.
 */
module CpuCommon {
  import opened Wrappers
  import opened Seqs
  import opened Text
  import opened Machine

  /** `s.replace(pat, "")`: every non-overlapping occurrence, left to right, removed. */
  function RemoveAll(s: string, pat: string): (r: string)
    requires |pat| > 0
    ensures |r| <= |s|
    decreases |s|
  {
    if |s| < |pat| then s
    else if s[..|pat|] == pat then RemoveAll(s[|pat|..], pat)
    else [s[0]] + RemoveAll(s[1..], pat)
  }

  predicate OccursAt(s: string, pat: string, i: nat) {
    i + |pat| <= |s| && s[i..i + |pat|] == pat
  }

  /** A string without the pattern is left as it is. */
  lemma {:induction false} RemoveAbsent(s: string, pat: string)
    requires |pat| > 0
    requires forall i :: 0 <= i <= |s| ==> !OccursAt(s, pat, i)
    ensures RemoveAll(s, pat) == s
    decreases |s|
  {
    if |s| >= |pat| {
      assert !OccursAt(s, pat, 0);
      forall i | 0 <= i <= |s[1..]|
        ensures !OccursAt(s[1..], pat, i)
      {
        assert !OccursAt(s, pat, i + 1);
      }
      RemoveAbsent(s[1..], pat);
      assert [s[0]] + s[1..] == s;
    }
  }

  /**
   One removal step: when the first occurrence of the pattern starts right
   after `a`, the prefix `a` is kept, that occurrence goes, and the rest is
   processed in turn.
   */
  lemma {:induction false} RemoveFirst(a: string, pat: string, b: string)
    requires |pat| > 0
    requires forall i :: 0 <= i < |a| ==> !OccursAt(a + pat + b, pat, i)
    ensures RemoveAll(a + pat + b, pat) == a + RemoveAll(b, pat)
    decreases |a|
  {
    var s := a + pat + b;
    if |a| == 0 {
      assert s[..|pat|] == pat && s[|pat|..] == b;
    } else {
      assert !OccursAt(s, pat, 0);
      var t := a[1..] + pat + b;
      assert s[1..] == t;
      assert RemoveAll(s, pat) == [a[0]] + RemoveAll(t, pat);
      forall i | 0 <= i < |a[1..]|
        ensures !OccursAt(t, pat, i)
      {
        assert !OccursAt(s, pat, i + 1);
        assert t[i..i + |pat|] == s[i + 1..i + 1 + |pat|];
      }
      RemoveFirst(a[1..], pat, b);
      assert [a[0]] + a[1..] == a;
    }
  }

  /** No `(` in the string. */
  predicate ParenFree(s: string) {
    forall i :: 0 <= i < |s| ==> s[i] != '('
  }

  /** The pattern does not start at `i` when its first or second character differs there. */
  lemma Mismatch(s: string, pat: string, i: nat)
    requires |pat| > 1
    requires i + |pat| > |s| || s[i] != pat[0] || s[i + 1] != pat[1]
    ensures !OccursAt(s, pat, i)
  {
    if i + |pat| <= |s| {
      var w := s[i..i + |pat|];
      assert w[0] == s[i] && w[1] == s[i + 1];
    }
  }

  /** Removing a two-or-more-character mark that starts with `(` leaves a string without `(` unchanged. */
  lemma RemoveFromParenFree(s: string, pat: string)
    requires ParenFree(s) && |pat| > 1 && pat[0] == '('
    ensures RemoveAll(s, pat) == s
  {
    forall i | 0 <= i <= |s|
      ensures !OccursAt(s, pat, i)
    {
      Mismatch(s, pat, i);
    }
    RemoveAbsent(s, pat);
  }

  /** `(R)` occurs nowhere in `b(TM)c` when `b` and `c` have no `(`. */
  lemma NoRegisteredAfter(b: string, c: string)
    requires ParenFree(b) && ParenFree(c)
    ensures RemoveAll(b + "(TM)" + c, "(R)") == b + "(TM)" + c
  {
    var rest := b + "(TM)" + c;
    forall i | 0 <= i <= |rest|
      ensures !OccursAt(rest, "(R)", i)
    {
      if i < |b| {
        assert rest[i] == b[i];
      } else if i == |b| {
        assert rest[i + 1] == 'T';
      } else if i < |b| + 4 {
        assert rest[i] == "(TM)"[i - |b|];
      } else if i < |rest| {
        assert rest[i] == c[i - |b| - 4];
      }
      Mismatch(rest, "(R)", i);
    }
    RemoveAbsent(rest, "(R)");
  }

  /** A mark starting with `(` does not start inside a prefix without `(`. */
  lemma NoMarkInPrefix(a: string, pat: string, b: string)
    requires ParenFree(a) && |pat| > 1 && pat[0] == '('
    ensures forall i :: 0 <= i < |a| ==> !OccursAt(a + pat + b, pat, i)
  {
    var s := a + pat + b;
    forall i | 0 <= i < |a|
      ensures !OccursAt(s, pat, i)
    {
      assert s[i] == a[i];
      Mismatch(s, pat, i);
    }
  }

  lemma ParenFreeConcat(a: string, b: string)
    requires ParenFree(a) && ParenFree(b)
    ensures ParenFree(a + b)
  {
    forall i | 0 <= i < |a + b|
      ensures (a + b)[i] != '('
    {
      if i < |a| { assert (a + b)[i] == a[i]; } else { assert (a + b)[i] == b[i - |a|]; }
    }
  }

  /** The first pass takes out the `(R)` of `a(R)b(TM)c`, and nothing else. */
  lemma RegisteredRemoved(a: string, b: string, c: string)
    requires ParenFree(a) && ParenFree(b) && ParenFree(c)
    ensures RemoveAll(a + "(R)" + b + "(TM)" + c, "(R)") == (a + b) + "(TM)" + c
  {
    var rest := b + "(TM)" + c;
    assert a + "(R)" + b + "(TM)" + c == a + "(R)" + rest;
    NoMarkInPrefix(a, "(R)", rest);
    RemoveFirst(a, "(R)", rest);
    NoRegisteredAfter(b, c);
    assert a + rest == (a + b) + "(TM)" + c;
  }

  /** The second pass takes out the `(TM)` of `d(TM)c`, and nothing else. */
  lemma TrademarkRemoved(d: string, c: string)
    requires ParenFree(d) && ParenFree(c)
    ensures RemoveAll(d + "(TM)" + c, "(TM)") == d + c
  {
    NoMarkInPrefix(d, "(TM)", c);
    RemoveFirst(d, "(TM)", c);
    RemoveFromParenFree(c, "(TM)");
  }

  /**
   A brand of the usual shape, `a(R)b(TM)c` with no other `(`, loses exactly
   its two marks.
   */
  lemma CleanModelDropsMarks(a: string, b: string, c: string)
    requires ParenFree(a) && ParenFree(b) && ParenFree(c)
    ensures CleanModel(a + "(R)" + b + "(TM)" + c, TrademarkSigns) == a + b + c
  {
    var brand := a + "(R)" + b + "(TM)" + c;
    RegisteredRemoved(a, b, c);
    ParenFreeConcat(a, b);
    TrademarkRemoved(a + b, c);
    assert CleanModel(brand, TrademarkSigns) == CleanModel(RemoveAll(RemoveAll(brand, "(R)"), "(TM)"), []);
  }

  predicate NotChar(c: char, x: char) {
    x != c
  }

  /** Removing a one-character pattern deletes exactly that character. */
  lemma {:induction false} RemoveCharIsFilter(s: string, c: char)
    ensures RemoveAll(s, [c]) == Filter(s, x => NotChar(c, x))
    decreases |s|
  {
    if |s| >= 1 {
      RemoveCharIsFilter(s[1..], c);
      assert s[..1] == [s[0]];
    }
  }

  /** The model name with each pattern removed in turn. */
  function CleanModel(brand: string, patterns: seq<string>): (r: string)
    requires forall k :: 0 <= k < |patterns| ==> |patterns[k]| > 0
    ensures |r| <= |brand|
    decreases |patterns|
  {
    if |patterns| == 0 then brand else CleanModel(RemoveAll(brand, patterns[0]), patterns[1..])
  }

  /** The brand marks the GTK widgets strip. */
  const TrademarkSigns: seq<string> := ["(R)", "(TM)"]

  /** `ProcessStatus`, reduced to what the widgets test. */
  datatype Status = Run | Sleep | OtherStatus

  predicate Running(status: Status) {
    status == Run
  }

  lemma ModUnique(a: int, k: int, q: int, r: int)
    requires k > 0 && 0 <= r < k && a == q * k + r
    ensures a % k == r
  {
    var q', r' := a / k, a % k;
    assert a == q' * k + r';
    assert q * k - q' * k == (q - q') * k;
    if q > q' {
      MulAtLeast(q - q', k);
    } else if q < q' {
      assert q' * k - q * k == (q' - q) * k;
      MulAtLeast(q' - q, k);
    }
  }

  lemma ModStep(i: nat, k: nat)
    requires k > 0
    ensures (i + 1) % k == 0 <==> i % k + 1 == k
    ensures (i + 1) % k != 0 ==> (i + 1) % k == i % k + 1
  {
    var q, r := i / k, i % k;
    if r + 1 < k {
      ModUnique(i + 1, k, q, r + 1);
    } else {
      ModUnique(i + 1, k, q + 1, 0);
    }
  }

  /** The laid-out CPU bars: rows of CPU indexes, and one sender per CPU in creation order. */
  datatype Bars = Bars(rows: seq<seq<nat>>, senders: seq<nat>)

  const RemainderByZero := "attempt to calculate the remainder with a divisor of zero"

  /** Every row holds exactly `k` bars. */
  predicate FullRows(rows: seq<seq<nat>>, k: nat) {
    forall j :: 0 <= j < |rows| ==> |rows[j]| == k
  }

  /** Rows of 1 to `k` bars, all but the last full. */
  predicate LaidOut<T>(rows: seq<seq<T>>, k: nat) {
    && (forall j :: 0 <= j < |rows| ==> 1 <= |rows[j]| <= k)
    && (forall j :: 0 <= j < |rows| - 1 ==> |rows[j]| == k)
  }

  lemma FullRowsLaidOut(rows: seq<seq<nat>>, k: nat)
    requires k >= 1 && FullRows(rows, k)
    ensures LaidOut(rows, k)
  {
  }

  lemma CloseFullRow(rows: seq<seq<nat>>, row: seq<nat>, k: nat)
    requires FullRows(rows, k) && |row| == k
    ensures FullRows(rows + [row], k)
  {
    assert forall j :: 0 <= j < |rows| ==> (rows + [row])[j] == rows[j];
  }

  lemma CloseLastRow(rows: seq<seq<nat>>, row: seq<nat>, k: nat)
    requires FullRows(rows, k) && 1 <= |row| <= k
    ensures LaidOut(rows + [row], k)
  {
    assert forall j :: 0 <= j < |rows| ==> (rows + [row])[j] == rows[j];
  }

  /**
   The bar layout loop: bar `i` joins the current row, which is closed after
   every `numPerRow` bars and after the last CPU.
   */
  method GroupBars(numCpus: nat, numPerRow: nat) returns (o: Outcome<Bars>)
    ensures o.Panic? <==> numCpus > 0 && numPerRow == 0
    ensures o.Done? ==> o.value.senders == Range(numCpus)
    ensures o.Done? ==> Flatten(o.value.rows) == Range(numCpus)
    ensures o.Done? ==> forall j :: 0 <= j < |o.value.rows| ==> 1 <= |o.value.rows[j]| <= numPerRow
    ensures o.Done? ==> forall j :: 0 <= j < |o.value.rows| - 1 ==> |o.value.rows[j]| == numPerRow
  {
    if numCpus > 0 && numPerRow == 0 {
      return Panic(RemainderByZero);
    }
    var rows: seq<seq<nat>> := [];
    var row: seq<nat> := [];
    var senders: seq<nat> := [];
    var i := 0;
    while i < numCpus
      invariant 0 <= i <= numCpus
      invariant senders == Range(i)
      invariant Flatten(rows) + row == Range(i)
      invariant i < numCpus ==> |row| == i % numPerRow && FullRows(rows, numPerRow)
      invariant i == numCpus ==> row == [] && LaidOut(rows, numPerRow)
    {
      ModStep(i, numPerRow);
      row := row + [i];
      senders := senders + [i];
      assert Flatten(rows) + row == Range(i + 1);
      if (i + 1) % numPerRow == 0 {
        FlattenAppendOne(rows, row);
        CloseFullRow(rows, row, numPerRow);
        rows := rows + [row];
        row := [];
        FullRowsLaidOut(rows, numPerRow);
      } else if i == numCpus - 1 {
        FlattenAppendOne(rows, row);
        CloseLastRow(rows, row, numPerRow);
        rows := rows + [row];
        row := [];
      }
      i := i + 1;
    }
    return Done(Bars(rows, senders));
  }

  /** `xs.chunks(k)`: consecutive rows of `k`, the last one possibly shorter. */
  function Chunks<T>(xs: seq<T>, k: nat): (rows: seq<seq<T>>)
    requires k > 0
    ensures Flatten(rows) == xs
    ensures forall j :: 0 <= j < |rows| ==> 1 <= |rows[j]| <= k
    ensures forall j :: 0 <= j < |rows| - 1 ==> |rows[j]| == k
    decreases |xs|
  {
    if |xs| == 0 then []
    else if |xs| <= k then [xs]
    else [xs[..k]] + Chunks(xs[k..], k)
  }

  lemma {:induction false} FlattenNonEmpty<T>(rows: seq<seq<T>>)
    requires |rows| > 0
    ensures |Flatten(rows)| >= |rows[0]|
  {
  }

  /**
   Rows that concatenate to `xs`, each of 1 to `k` items and all but the
   last full, are exactly `xs.chunks(k)`.
   */
  lemma {:induction false} RowsAreChunks<T>(rows: seq<seq<T>>, xs: seq<T>, k: nat)
    requires k > 0 && Flatten(rows) == xs
    requires forall j :: 0 <= j < |rows| ==> 1 <= |rows[j]| <= k
    requires forall j :: 0 <= j < |rows| - 1 ==> |rows[j]| == k
    ensures rows == Chunks(xs, k)
    decreases |rows|
  {
    if |rows| == 1 {
      assert Flatten(rows) == rows[0] + Flatten(rows[1..]);
      assert xs == rows[0];
    } else if |rows| > 1 {
      var rest := Flatten(rows[1..]);
      assert xs == rows[0] + rest;
      FlattenNonEmpty(rows[1..]);
      assert xs[..k] == rows[0];
      assert xs[k..] == rest;
      RowsAreChunks(rows[1..], rest, k);
    }
  }

  /** The GTK bar rows are the iced view's `chunks` of the CPU list. */
  method GroupBarsAreChunks(numCpus: nat, numPerRow: nat) returns (rows: seq<seq<nat>>)
    requires numPerRow > 0
    ensures rows == Chunks(Range(numCpus), numPerRow)
  {
    var o := GroupBars(numCpus, numPerRow);
    RowsAreChunks(o.value.rows, Range(numCpus), numPerRow);
    rows := o.value.rows;
  }

  /** A process as the process probe lists it. */
  datatype ProbedProcess = ProbedProcess(pid: nat, status: Status, tasks: Option<set<nat>>, cmd: seq<string>)

  /** `cmd.iter().skip(1).fold(String::new(), |res, cur| res + cur + " ")`. */
  function ArgsText(args: seq<string>): (s: string)
  {
    if |args| == 0 then "" else args[0] + " " + ArgsText(args[1..])
  }

  /** The arguments text is the arguments space-joined, with a trailing space. */
  lemma {:induction false} ArgsTextIsJoin(args: seq<string>)
    ensures ArgsText(args) == if |args| == 0 then "" else Join(args, ' ') + " "
  {
    if |args| > 1 {
      ArgsTextIsJoin(args[1..]);
    }
  }

  /** `format!("{} {}", name, args)`: the name, a space, then each argument after `argv[0]` and a space. */
  function CommandLine(name: string, cmd: seq<string>): (s: string)
    ensures |cmd| <= 1 ==> s == name + " "
    ensures |cmd| > 1 ==> s == name + " " + Join(cmd[1..], ' ') + " "
  {
    var args := if |cmd| == 0 then [] else cmd[1..];
    ArgsTextIsJoin(args);
    name + " " + ArgsText(args)
  }
}
