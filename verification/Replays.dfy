/** Replays sit side by side: what any serial sequence of saves leaves behind. */
module Replays {
  import opened Domain
  import opened States
  import opened Storage

  /** One finished investigation of one incident. */
  datatype Investigation = Investigation(incident: Identity, state: State)

  ghost predicate Numbered(s: State) {
    forall i :: 0 <= i < |s.steps| ==> s.steps[i].sequence == i + 1
  }

  /** The tables after each investigation in turn took the next attempt number and was saved. */
  function After(saves: seq<Investigation>): Tables {
    if saves == [] then EMPTY
    else
      var before, last := After(saves[..|saves| - 1]), saves[|saves| - 1];
      Saved(before, last.incident, last.state, NextAttempt(before, last.incident))
  }

  /** The database does just that when investigations are saved one after the other. */
  method SaveInTurn(saves: seq<Investigation>) returns (session: Session)
    ensures fresh(session) && session.Contents() == After(saves)
  {
    session := new Session(EMPTY);
    for i := 0 to |saves|
      invariant fresh(session) && session.Contents() == After(saves[..i])
    {
      assert saves[..i + 1][..i] == saves[..i];
      session.Save(saves[i].incident, saves[i].state, NextAttempt(session.Contents(), saves[i].incident));
    }
    assert saves[..|saves|] == saves;
  }

  /** The attempt number each save of one incident carried, in save order. */
  function Attempts(saves: seq<Investigation>, id: Identity): seq<nat> {
    if saves == [] then []
    else
      var earlier, last := saves[..|saves| - 1], saves[|saves| - 1];
      Attempts(earlier, id) + if last.incident == id then [NextAttempt(After(earlier), id)] else []
  }

  /** The saves of one incident, in order. */
  function Of(saves: seq<Investigation>, id: Identity): seq<Investigation> {
    if saves == [] then []
    else
      var last := saves[|saves| - 1];
      Of(saves[..|saves| - 1], id) + if last.incident == id then [last] else []
  }

  function StepsOf(rows: seq<StepRow>, id: Identity): seq<StepRow> {
    if rows == [] then []
    else
      var last := rows[|rows| - 1];
      StepsOf(rows[..|rows| - 1], id) + if last.incident == id then [last] else []
  }

  function DiagnosesOf(rows: seq<DiagnosisRow>, id: Identity): seq<DiagnosisRow> {
    if rows == [] then []
    else
      var last := rows[|rows| - 1];
      DiagnosesOf(rows[..|rows| - 1], id) + if last.incident == id then [last] else []
  }

  lemma {:induction false} StepsOfAppends(a: seq<StepRow>, b: seq<StepRow>, id: Identity)
    ensures StepsOf(a + b, id) == StepsOf(a, id) + StepsOf(b, id)
  {
    if b == [] {
      assert a + b == a;
    } else {
      assert (a + b)[..|a + b| - 1] == a + b[..|b| - 1];
      StepsOfAppends(a, b[..|b| - 1], id);
    }
  }

  lemma {:induction false} StepsOfUniform(rows: seq<StepRow>, id: Identity)
    requires forall r :: r in rows ==> r.incident == rows[0].incident
    ensures StepsOf(rows, id) == if rows != [] && rows[0].incident == id then rows else []
  {
    if rows != [] {
      assert rows[|rows| - 1] in rows;
      assert forall r :: r in rows[..|rows| - 1] ==> r in rows;
      StepsOfUniform(rows[..|rows| - 1], id);
    }
  }

  /** Sequences run 1..n and attempts never decrease, none above `next`. */
  ghost predicate InOrder(rows: seq<StepRow>, next: nat) {
    && (forall i :: 0 <= i < |rows| ==> rows[i].sequence == i + 1 && rows[i].attempt <= next)
    && (forall i, j :: 0 <= i < j < |rows| ==> rows[i].attempt <= rows[j].attempt)
  }

  /** Where rows are numbered from one, the highest number is their count. */
  lemma {:induction false} NumberedRowsCount(rows: seq<StepRow>, id: Identity, next: nat)
    requires InOrder(StepsOf(rows, id), next)
    ensures MaxSequence(rows, id) == |StepsOf(rows, id)|
  {
    if rows != [] {
      var rest, mine, last := StepsOf(rows[..|rows| - 1], id), StepsOf(rows, id), rows[|rows| - 1];
      assert rest == mine[..|rest|];
      NumberedRowsCount(rows[..|rows| - 1], id, next);
      assert last.incident == id ==> mine[|rest|] == last;
    }
  }

  /** Rows numbered on from an ordered list, all of the next attempt, keep it ordered. */
  lemma NumberingContinues(rows: seq<StepRow>, id: Identity, attempt: nat, s: State, next: nat)
    requires Numbered(s) && InOrder(rows, attempt) && attempt <= next
    ensures InOrder(rows + StepRows(id, attempt, |rows|, s.steps), next)
  {}

  /** Saving continues the numbering of one incident and leaves every other incident alone. */
  lemma SavingContinues(t: Tables, id: Identity, saved: Identity, s: State, next: nat)
    requires Numbered(s) && InOrder(StepsOf(t.steps, id), NextAttempt(t, id)) && NextAttempt(t, id) <= next
    ensures InOrder(StepsOf(Saved(t, saved, s, NextAttempt(t, saved)).steps, id), next)
  {
    hide StepsOf, MaxSequence;
    var added := StepRows(saved, NextAttempt(t, saved), MaxSequence(t.steps, saved), s.steps);
    StepsOfAppends(t.steps, added, id);
    StepsOfUniform(added, id);
    NumberedRowsCount(t.steps, id, NextAttempt(t, id));
    hide NextAttempt, StepRows;
    if added != [] && saved == id {
      NumberingContinues(StepsOf(t.steps, id), id, NextAttempt(t, id), s, next);
    } else {
      assert StepsOf(t.steps, id) + [] == StepsOf(t.steps, id);
      NumberingContinues(StepsOf(t.steps, id), id, NextAttempt(t, id), s.(steps := []), next);
    }
  }

  /** Step sequences of an incident are exactly 1..n in save order, and attempts never decrease. */
  lemma {:induction false} SequencesContinue(saves: seq<Investigation>, id: Identity)
    requires forall v :: v in saves ==> Numbered(v.state)
    ensures InOrder(StepsOf(After(saves).steps, id), NextAttempt(After(saves), id))
  {
    if saves != [] {
      var earlier, last := saves[..|saves| - 1], saves[|saves| - 1];
      assert saves == earlier + [last];
      SequencesContinue(earlier, id);
      AttemptsGrow(earlier, last, id);
      SavingContinues(After(earlier), id, last.incident, last.state, NextAttempt(After(saves), id));
    }
  }

  lemma OneMoreDiagnosis(rows: seq<DiagnosisRow>, row: DiagnosisRow, id: Identity)
    ensures MaxAttempt(rows + [row], id) == Max(MaxAttempt(rows, id), if row.incident == id then row.attempt else 0)
  {
    assert (rows + [row])[..|rows|] == rows;
  }

  lemma OneMoreSave(earlier: seq<Investigation>, last: Investigation)
    ensures After(earlier + [last])
         == Saved(After(earlier), last.incident, last.state, NextAttempt(After(earlier), last.incident))
  {
    assert (earlier + [last])[..|earlier|] == earlier;
  }

  /** Storing a diagnosis moves the incident's next attempt on by one; nothing else moves it. */
  lemma AttemptsGrow(earlier: seq<Investigation>, last: Investigation, id: Identity)
    ensures NextAttempt(After(earlier + [last]), id) == NextAttempt(After(earlier), id)
      + if last.incident == id && last.state.diagnosis.Some? then 1 else 0
  {
    hide After, MaxAttempt;
    OneMoreSave(earlier, last);
    var rows, next := After(earlier).diagnoses, NextAttempt(After(earlier), last.incident);
    if last.state.diagnosis.Some? {
      OneMoreDiagnosis(rows, DiagnosisRow(last.incident, next, last.state.diagnosis.value), id);
    } else {
      assert rows + [] == rows;
    }
  }

  /** Diagnoses of an incident are attempts 1..m in save order. */
  lemma {:induction false} DiagnosesAreNumbered(saves: seq<Investigation>, id: Identity)
    ensures var rows := DiagnosesOf(After(saves).diagnoses, id);
      && CountUp(rows)
      && MaxAttempt(After(saves).diagnoses, id) == |rows|
  {
    if saves != [] {
      var earlier, last := saves[..|saves| - 1], saves[|saves| - 1];
      DiagnosesAreNumbered(earlier, id);
      var before, rows := After(earlier).diagnoses, After(saves).diagnoses;
      if last.state.diagnosis.Some? {
        assert rows[..|rows| - 1] == before;
      } else {
        assert rows == before;
      }
    }
  }

  /** Attempts count up from one. */
  ghost predicate CountUp(mine: seq<DiagnosisRow>) {
    forall i :: 0 <= i < |mine| ==> mine[i].attempt == i + 1
  }

  lemma {:induction false} LatestIsTheLastRow(rows: seq<DiagnosisRow>, id: Identity)
    requires CountUp(DiagnosesOf(rows, id))
    ensures var mine := DiagnosesOf(rows, id);
      LatestDiagnosis(rows, id) == if mine == [] then None else Some(mine[|mine| - 1])
  {
    if rows != [] {
      var rest, mine := DiagnosesOf(rows[..|rows| - 1], id), DiagnosesOf(rows, id);
      assert rest == mine[..|rest|];
      assert mine != [] ==> mine[|mine| - 1].attempt == |mine|;
      LatestIsTheLastRow(rows[..|rows| - 1], id);
    }
  }

  /** The latest diagnosis is always the last one saved, and no other row shares its attempt. */
  lemma LatestDiagnosisIsTheLastSaved(saves: seq<Investigation>, id: Identity)
    ensures var rows := DiagnosesOf(After(saves).diagnoses, id);
      && LatestDiagnosis(After(saves).diagnoses, id)
           == (if rows == [] then None else Some(rows[|rows| - 1]))
      && (forall i, j :: 0 <= i < j < |rows| ==> rows[i].attempt < rows[j].attempt)
  {
    DiagnosesAreNumbered(saves, id);
    LatestIsTheLastRow(After(saves).diagnoses, id);
  }

  /** Attempts handed out never decrease nor pass the next one, and reach it exactly when the last
      save stored no diagnosis. */
  ghost predicate HandedOut(given: seq<nat>, next: nat, lastStored: bool) {
    && (forall i, j :: 0 <= i < j < |given| ==> given[i] <= given[j])
    && (forall i :: 0 <= i < |given| ==> 1 <= given[i] <= next)
    && (given != [] ==> if lastStored then given[|given| - 1] < next else given[|given| - 1] == next)
  }

  predicate LastStored(mine: seq<Investigation>) {
    mine == [] || mine[|mine| - 1].state.diagnosis.Some?
  }

  lemma {:induction false} AttemptsBelowNext(saves: seq<Investigation>, id: Identity)
    ensures |Of(saves, id)| == |Attempts(saves, id)|
    ensures HandedOut(Attempts(saves, id), NextAttempt(After(saves), id), LastStored(Of(saves, id)))
  {
    if saves != [] {
      var earlier, last := saves[..|saves| - 1], saves[|saves| - 1];
      AttemptsBelowNext(earlier, id);
      AnotherHandedOut(earlier, last, id);
      assert saves == earlier + [last];
    }
  }

  lemma AnotherHandedOut(earlier: seq<Investigation>, last: Investigation, id: Identity)
    requires |Of(earlier, id)| == |Attempts(earlier, id)|
    requires HandedOut(Attempts(earlier, id), NextAttempt(After(earlier), id), LastStored(Of(earlier, id)))
    ensures var saves := earlier + [last];
      && |Of(saves, id)| == |Attempts(saves, id)|
      && HandedOut(Attempts(saves, id), NextAttempt(After(saves), id), LastStored(Of(saves, id)))
  {
    hide After, NextAttempt;
    assert (earlier + [last])[..|earlier|] == earlier;
    AttemptsGrow(earlier, last, id);
    NextAttemptIsPositive(After(earlier), id);
  }

  lemma NextAttemptIsPositive(t: Tables, id: Identity)
    ensures NextAttempt(t, id) >= 1
  {}

  /** The next attempt number is new exactly when the incident has no save yet or its last save
      stored a diagnosis. An investigation saved without one gives its number away again. */
  lemma NextAttemptIsFreshExactlyWhen(saves: seq<Investigation>, id: Identity)
    ensures NextAttempt(After(saves), id) !in Attempts(saves, id) <==> LastStored(Of(saves, id))
  {
    AttemptsBelowNext(saves, id);
  }

  /** Two saves without a diagnosis share attempt one. */
  lemma AttemptsCanBeShared(id: Identity, start: State)
    requires start.diagnosis.None?
    ensures Attempts([Investigation(id, start), Investigation(id, start)], id) == [1, 1]
  {
    var one := [Investigation(id, start)];
    var two := one + [Investigation(id, start)];
    assert two[..1] == one && one[..0] == [];
    assert After(one).diagnoses == [] && Attempts(one, id) == [1];
    assert Attempts(two, id) == Attempts(two[..1], id) + [NextAttempt(After(two[..1]), id)];
  }
}
