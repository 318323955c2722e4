/** The tallies the reports build: Python dicts and Counters from a label to
    a count (kept in the order their keys were first inserted), the per-shift
    table `estatisticas_turno`, and the classification of rejection reasons
    into the weight, colour and length checks. */
module Stats {
  import opened Text
  import opened Common

  // ------------------------------------------------------------------------
  // Counters

  /** A dict of counts whose keys keep their first-insertion order. */
  type Counts = seq<(string, nat)>

  /** `c.get(k, 0)`. */
  function Count(c: Counts, k: string): nat
  {
    if c == [] then 0 else if c[0].0 == k then c[0].1 else Count(c[1..], k)
  }

  /** `c[k] += 1` on a Counter, or `c[k] = c.get(k, 0) + 1` on a dict: a new key
      goes to the end. */
  function Bump(c: Counts, k: string): Counts
  {
    if c == [] then [(k, 1)]
    else if c[0].0 == k then [(k, c[0].1 + 1)] + c[1..]
    else [c[0]] + Bump(c[1..], k)
  }

  /** The sum of every count. */
  function Total(c: Counts): nat
  {
    if c == [] then 0 else c[0].1 + Total(c[1..])
  }

  function Keys(c: Counts): seq<string>
  {
    if c == [] then [] else [c[0].0] + Keys(c[1..])
  }

  /** Bumping a key adds one to that key and leaves every other key alone. */
  lemma {:induction false} BumpCount(c: Counts, k: string, j: string)
    ensures Count(Bump(c, k), j) == Count(c, j) + (if j == k then 1 else 0)
  {
    if c != [] && c[0].0 != k {
      BumpCount(c[1..], k, j);
    }
  }

  lemma {:induction false} BumpTotal(c: Counts, k: string)
    ensures Total(Bump(c, k)) == Total(c) + 1
  {
    if c != [] && c[0].0 != k {
      BumpTotal(c[1..], k);
    }
  }

  /** A key already present keeps its place; a new one is appended. */
  lemma {:induction false} BumpKeys(c: Counts, k: string)
    ensures k in Keys(c) ==> Keys(Bump(c, k)) == Keys(c)
    ensures k !in Keys(c) ==> Keys(Bump(c, k)) == Keys(c) + [k]
  {
    if c != [] && c[0].0 != k {
      BumpKeys(c[1..], k);
    }
  }

  // ------------------------------------------------------------------------
  // The per-shift table

  /** One entry of `estatisticas_turno`. */
  datatype ShiftRow = ShiftRow(shift: string, approved: nat, rejected: nat, total: nat)

  /** `estatisticas_turno[turno]` counting one more part. */
  function Tick(rows: seq<ShiftRow>, shift: string, approved: bool): seq<ShiftRow>
  {
    if rows == [] then [ShiftRow(shift, if approved then 1 else 0, if approved then 0 else 1, 1)]
    else if rows[0].shift == shift then
      [ShiftRow(shift, rows[0].approved + (if approved then 1 else 0),
                rows[0].rejected + (if approved then 0 else 1), rows[0].total + 1)]
      + rows[1..]
    else [rows[0]] + Tick(rows[1..], shift, approved)
  }

  /** The shifts the table has rows for. */
  function ShiftsOf(rows: seq<ShiftRow>): set<string>
  {
    set i | 0 <= i < |rows| :: rows[i].shift
  }

  /** No shift has two rows, as in a dict keyed by shift. */
  predicate OneRowPerShift(rows: seq<ShiftRow>)
  {
    forall i, j :: 0 <= i < j < |rows| ==> rows[i].shift != rows[j].shift
  }

  lemma ShiftsOfCons(x: ShiftRow, rows: seq<ShiftRow>)
    ensures ShiftsOf([x] + rows) == {x.shift} + ShiftsOf(rows)
  {
    var r := [x] + rows;
    forall y | y in ShiftsOf(r) ensures y in {x.shift} + ShiftsOf(rows) {
      var i :| 0 <= i < |r| && r[i].shift == y;
      if i > 0 { assert rows[i - 1].shift == y; }
    }
    forall y | y in ShiftsOf(rows) ensures y in ShiftsOf(r) {
      var i :| 0 <= i < |rows| && rows[i].shift == y;
      assert r[i + 1].shift == y;
    }
    assert r[0].shift == x.shift;
  }

  /** A row followed by rows for other shifts, none twice, has no shift twice. */
  lemma ConsOneRow(x: ShiftRow, rows: seq<ShiftRow>)
    requires x.shift !in ShiftsOf(rows) && OneRowPerShift(rows)
    ensures OneRowPerShift([x] + rows)
  {
    var r := [x] + rows;
    forall i, j | 0 <= i < j < |r| ensures r[i].shift != r[j].shift {
      assert r[j] == rows[j - 1];
      if i == 0 {
        assert rows[j - 1].shift in ShiftsOf(rows);
      } else {
        assert r[i] == rows[i - 1];
      }
    }
  }

  /** Counting a part adds a row only for a shift not seen before. */
  lemma {:induction false} TickShifts(rows: seq<ShiftRow>, shift: string, approved: bool)
    ensures ShiftsOf(Tick(rows, shift, approved)) == ShiftsOf(rows) + {shift}
    ensures |Tick(rows, shift, approved)| <= |rows| + 1
    ensures OneRowPerShift(rows) ==> OneRowPerShift(Tick(rows, shift, approved))
  {
    if rows == [] {
      ShiftsOfCons(Tick(rows, shift, approved)[0], []);
    } else {
      var x := rows[0];
      assert rows == [x] + rows[1..];
      ShiftsOfCons(x, rows[1..]);
      if x.shift == shift {
        var y := Tick(rows, shift, approved)[0];
        ShiftsOfCons(y, rows[1..]);
        if OneRowPerShift(rows) {
          assert OneRowPerShift(rows[1..]) by {
            forall i, j | 0 <= i < j < |rows| - 1 ensures rows[1..][i].shift != rows[1..][j].shift {
              assert rows[1..][i] == rows[i + 1] && rows[1..][j] == rows[j + 1];
            }
          }
          NotInTail(rows);
          ConsOneRow(y, rows[1..]);
        }
      } else {
        var t := Tick(rows[1..], shift, approved);
        TickShifts(rows[1..], shift, approved);
        ShiftsOfCons(x, t);
        if OneRowPerShift(rows) {
          assert OneRowPerShift(rows[1..]) by {
            forall i, j | 0 <= i < j < |rows| - 1 ensures rows[1..][i].shift != rows[1..][j].shift {
              assert rows[1..][i] == rows[i + 1] && rows[1..][j] == rows[j + 1];
            }
          }
          NotInTail(rows);
          ConsOneRow(x, t);
        }
      }
    }
  }

  lemma NotInTail(rows: seq<ShiftRow>)
    requires rows != [] && OneRowPerShift(rows)
    ensures rows[0].shift !in ShiftsOf(rows[1..])
  {
  }


  /** The table the report loop builds from (shift, approved) of each part,
      visiting the parts in order. */
  function ShiftTable(marks: seq<(string, bool)>): (r: seq<ShiftRow>)
    ensures |r| <= |marks| && OneRowPerShift(r)
    ensures ShiftsOf(r) == MarkedShifts(marks)
  {
    if marks == [] then []
    else
      var init, last := marks[..|marks| - 1], marks[|marks| - 1];
      TickShifts(ShiftTable(init), last.0, last.1);
      MarkedShiftsSnoc(init, last);
      assert marks == init + [last];
      Tick(ShiftTable(init), last.0, last.1)
  }

  /** The shifts the parts were inspected on. */
  function MarkedShifts(marks: seq<(string, bool)>): set<string>
  {
    set i | 0 <= i < |marks| :: marks[i].0
  }

  lemma MarkedShiftsSnoc(marks: seq<(string, bool)>, m: (string, bool))
    ensures MarkedShifts(marks + [m]) == MarkedShifts(marks) + {m.0}
  {
    var all := marks + [m];
    forall x | x in MarkedShifts(all) ensures x in MarkedShifts(marks) + {m.0} {
      var i :| 0 <= i < |all| && all[i].0 == x;
      if i < |marks| { assert marks[i].0 == x; }
    }
    forall x | x in MarkedShifts(marks) ensures x in MarkedShifts(all) {
      var i :| 0 <= i < |marks| && marks[i].0 == x;
      assert all[i].0 == x;
    }
    assert all[|marks|].0 == m.0;
  }

  /** Every row's approved and rejected counts add up to its total. */
  predicate Balanced(rows: seq<ShiftRow>)
  {
    forall i :: 0 <= i < |rows| ==> rows[i].approved + rows[i].rejected == rows[i].total
  }

  function RowsTotal(rows: seq<ShiftRow>): nat
  {
    if rows == [] then 0 else rows[0].total + RowsTotal(rows[1..])
  }

  /** The (approved, rejected) counts of a shift; (0, 0) when it has no row. */
  function RowOf(rows: seq<ShiftRow>, shift: string): (nat, nat)
  {
    if rows == [] then (0, 0)
    else if rows[0].shift == shift then (rows[0].approved, rows[0].rejected)
    else RowOf(rows[1..], shift)
  }

  lemma {:induction false} TickKeeps(rows: seq<ShiftRow>, shift: string, approved: bool)
    requires Balanced(rows)
    ensures Balanced(Tick(rows, shift, approved))
    ensures RowsTotal(Tick(rows, shift, approved)) == RowsTotal(rows) + 1
  {
    if rows != [] && rows[0].shift != shift {
      TickKeeps(rows[1..], shift, approved);
      var t := Tick(rows, shift, approved);
      assert t[1..] == Tick(rows[1..], shift, approved);
    }
  }

  lemma {:induction false} TickRow(rows: seq<ShiftRow>, shift: string, approved: bool, s: string)
    ensures RowOf(Tick(rows, shift, approved), s)
      == if s == shift then
           (RowOf(rows, s).0 + (if approved then 1 else 0), RowOf(rows, s).1 + (if approved then 0 else 1))
         else RowOf(rows, s)
  {
    if rows != [] && rows[0].shift != shift {
      TickRow(rows[1..], shift, approved, s);
    }
  }

  /** The table is consistent and covers every part exactly once. */
  lemma {:induction false} ShiftTableSums(marks: seq<(string, bool)>)
    ensures Balanced(ShiftTable(marks))
    ensures RowsTotal(ShiftTable(marks)) == |marks|
  {
    if marks != [] {
      ShiftTableSums(marks[..|marks| - 1]);
      TickKeeps(ShiftTable(marks[..|marks| - 1]), marks[|marks| - 1].0, marks[|marks| - 1].1);
    }
  }

  /** The row of a shift counts exactly the approved and the rejected parts of
      that shift. */
  lemma {:induction false} ShiftTableCounts(marks: seq<(string, bool)>, s: string)
    ensures RowOf(ShiftTable(marks), s) == (multiset(marks)[(s, true)], multiset(marks)[(s, false)])
  {
    if marks != [] {
      var init, last := marks[..|marks| - 1], marks[|marks| - 1];
      assert marks == init + [last];
      assert ShiftTable(marks) == Tick(ShiftTable(init), last.0, last.1);
      ShiftTableCounts(init, s);
      TickRow(ShiftTable(init), last.0, last.1, s);
      CountAppended(init, last, (s, true));
      CountAppended(init, last, (s, false));
    }
  }

  lemma CountAppended<T>(xs: seq<T>, x: T, k: T)
    ensures multiset(xs + [x])[k] == multiset(xs)[k] + (if x == k then 1 else 0)
  {
    assert multiset(xs + [x]) == multiset(xs) + multiset{x};
  }

  // ------------------------------------------------------------------------
  // Rejection reasons

  /** The three checks of `validar`, in the order it runs them. */
  datatype Check = Weight | Color | Length

  function Position(k: Check): nat
  {
    match k
    case Weight => 0
    case Color => 1
    case Length => 2
  }

  /** The report's `if 'Peso' in motivo … elif 'Cor' … elif 'Comprimento' …`:
      a reason falls under the first check, in that order, whose short label
      it contains, and under none when it contains none of them. */
  function Classify(reason: string): (r: Option<Check>)
    ensures r.Some? ==> Contains(reason, Label(Short, r.value))
    ensures r.Some? ==> forall k :: Position(k) < Position(r.value) ==> !Contains(reason, Label(Short, k))
    ensures r.None? <==> forall k :: !Contains(reason, Label(Short, k))
  {
    if Contains(reason, "Peso") then Some(Weight)
    else if Contains(reason, "Cor") then Some(Color)
    else if Contains(reason, "Comprimento") then Some(Length)
    else None
  }

  /** Text in which neither 'P' nor 'C' occurs, as Python prints a float or an
      integer and as lower-cased text reads. */
  predicate Plain(s: string)
  {
    Lacks(s, 'P') && Lacks(s, 'C')
  }

  /** A reason that starts with "Peso" counts as a weight failure. */
  lemma WeightReasonClassified(rest: string)
    ensures Classify("Peso" + rest) == Some(Weight)
  {
    PrefixContained("Peso", rest);
  }

  /** A reason that starts with "Cor" and holds no 'P' counts as a colour failure. */
  lemma ColorReasonClassified(rest: string)
    requires Lacks(rest, 'P')
    ensures Classify("Cor" + rest) == Some(Color)
  {
    var s := "Cor" + rest;
    AbsentCharNotContained(s, "Peso", 0);
    PrefixContained("Cor", rest);
  }

  /** A reason that starts with "Comprimento" and has no further 'P' or 'C'
      counts as a length failure. */
  lemma LengthReasonClassified(rest: string)
    requires Plain(rest)
    ensures Classify("Comprimento" + rest) == Some(Length)
  {
    var s := "Comprimento" + rest;
    AbsentCharNotContained(s, "Peso", 0);
    assert !StartsWith(s, "Cor") by {
      assert s[..3] == "Com";
      assert "Com"[2] != "Cor"[2];
    }
    assert s[1..] == "omprimento" + rest;
    AbsentCharNotContained(s[1..], "Cor", 0);
    PrefixContained("Comprimento", rest);
  }

  /** Reasons that all fall under some check are all counted. */
  lemma {:induction false} AllTaggedNoneFree(reasons: seq<string>)
    requires forall i :: 0 <= i < |reasons| ==> Classify(reasons[i]).Some?
    ensures Tagged(reasons, None) == 0
  {
    if reasons != [] {
      AllTaggedNoneFree(reasons[..|reasons| - 1]);
    }
  }

  /** The keys a report files the checks under: the short ones from v0.14.1 on,
      the long ones in the v0.12 report screen. */
  datatype LabelStyle = Short | Long

  function Label(style: LabelStyle, k: Check): string
  {
    match (style, k)
    case (Short, Weight) => "Peso"
    case (Short, Color) => "Cor"
    case (Short, Length) => "Comprimento"
    case (Long, Weight) => "Peso fora do padrão"
    case (Long, Color) => "Cor não aprovada"
    case (Long, Length) => "Comprimento fora do padrão"
  }

  /** The counter the report builds from the reasons, in the order it meets them. */
  function Histogram(reasons: seq<string>, style: LabelStyle): (r: Counts)
    ensures Total(r) <= |reasons|
  {
    if reasons == [] then []
    else
      var h := Histogram(reasons[..|reasons| - 1], style);
      var c := Classify(reasons[|reasons| - 1]);
      if c.Some? then BumpTotal(h, Label(style, c.value)); Bump(h, Label(style, c.value)) else h
  }

  /** How many of the reasons fall under `tag` (`None`: under no check). */
  function Tagged(reasons: seq<string>, tag: Option<Check>): nat
  {
    if reasons == [] then 0
    else Tagged(reasons[..|reasons| - 1], tag) + (if Classify(reasons[|reasons| - 1]) == tag then 1 else 0)
  }

  /** Every classified reason is counted once, under its own check. */
  lemma {:induction false} HistogramCounts(reasons: seq<string>, style: LabelStyle, k: Check)
    ensures Count(Histogram(reasons, style), Label(style, k)) == Tagged(reasons, Some(k))
    ensures Total(Histogram(reasons, style)) == |reasons| - Tagged(reasons, None)
  {
    if reasons != [] {
      var init := reasons[..|reasons| - 1];
      HistogramCounts(init, style, k);
      TaggedBound(init);
      var c := Classify(reasons[|reasons| - 1]);
      if c.Some? {
        BumpCount(Histogram(init, style), Label(style, c.value), Label(style, k));
        BumpTotal(Histogram(init, style), Label(style, c.value));
      }
    }
  }

  lemma {:induction false} TaggedBound(reasons: seq<string>)
    ensures Tagged(reasons, None) <= |reasons|
  {
    if reasons != [] {
      TaggedBound(reasons[..|reasons| - 1]);
    }
  }

  /** `part / whole * 100`: the percentages the reports show, before Python
      rounds them. */
  function Percent(part: int, whole: int): (r: real)
    requires whole != 0
    ensures part == 0 <==> r == 0.0
  {
    (part as real) / (whole as real) * 100.0
  }

  /** The share of a positive whole is between 0 and 100, and at the ends
      exactly for none and for all of it. */
  lemma PercentBounds(a: nat, t: nat)
    requires a <= t && t > 0
    ensures 0.0 <= Percent(a, t) <= 100.0
    ensures Percent(a, t) == 0.0 <==> a == 0
    ensures Percent(a, t) == 100.0 <==> a == t
  {
    RatioBounds(a as real, t as real);
  }

  /** A ratio of two reals with `0 <= x <= y` and `y > 0` lies in [0, 1],
      and sits on either end only for `x == 0` and `x == y`. */
  lemma RatioBounds(x: real, y: real)
    requires 0.0 <= x <= y && y > 0.0
    ensures 0.0 <= x / y <= 1.0
    ensures x / y == 0.0 <==> x == 0.0
    ensures x / y == 1.0 <==> x == y
  {
    var q := x / y;
    assert q * y == x;
    if x == 0.0 {
      assert q == 0.0;
    } else if x == y {
      assert q == 1.0;
    } else {
      assert q != 0.0 && q != 1.0;
      assert 0.0 <= q <= 1.0;
    }
  }

  /** Against a positive goal, the percentage reaches 100 exactly when the
      goal is met. */
  lemma PercentOfGoal(a: nat, goal: int)
    requires goal > 0
    ensures Percent(a, goal) >= 0.0
    ensures Percent(a, goal) >= 100.0 <==> a >= goal
  {
    var q := (a as real) / (goal as real);
    assert q * (goal as real) == a as real;
  }

  /** Counting one more reason bumps its check's label, if it names one. */
  lemma HistogramStep(reasons: seq<string>, m: string, style: LabelStyle)
    ensures Histogram(reasons + [m], style)
      == if Classify(m).Some? then Bump(Histogram(reasons, style), Label(style, Classify(m).value))
         else Histogram(reasons, style)
  {
    assert (reasons + [m])[..|reasons|] == reasons;
  }

  /** The inner `for motivo in peca.motivos` loop of the report screens: one
      part's reasons counted into a histogram already holding `before`. */
  method TallyInto(h0: Counts, ghost before: seq<string>, ms: seq<string>, style: LabelStyle) returns (h: Counts)
    requires h0 == Histogram(before, style)
    ensures h == Histogram(before + ms, style)
  {
    h := h0;
    assert before + ms[..0] == before;
    for j := 0 to |ms|
      invariant h == Histogram(before + ms[..j], style)
    {
      HistogramStep(before + ms[..j], ms[j], style);
      assert before + ms[..j + 1] == (before + ms[..j]) + [ms[j]];
      var c := Classify(ms[j]);
      if c.Some? {
        h := Bump(h, Label(style, c.value));
      }
    }
    assert ms[..|ms|] == ms;
  }
}
