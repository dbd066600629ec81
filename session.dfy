/**
 * The command loop of `main` as a state machine over already-split lines.
 *
 * Before the first MULTI the loop dispatches GET, SET, DEL, INCR and DELVALUE
 * and ignores every other verb. MULTI enters a block that the loop never
 * leaves: inside it every line is still applied to the store at once, every
 * line other than GET, EXEC and DISCARD is added to a queue, and EXEC or
 * DISCARD prints the queue's size (or NOT IN TRANSACTION when it is empty)
 * and starts a fresh, empty queue.
 */
module Session {
  import opened JavaInt
  import opened Optional
  import opened Store
  import opened Redis

  /** The tokens of one input line, as `line.split(" ")` yields them. */
  type Line = seq<string>

  const NOT_IN_TRANSACTION: string := "NOT IN TRANSACTION"

  /** Before any MULTI, or inside the MULTI block with the lines queued since it (re)started. */
  datatype Mode = Normal | InMulti(queue: seq<Line>)

  /** Mode, store contents and the lines printed. */
  datatype Outcome = Outcome(mode: Mode, table: Table, out: seq<string>)

  /**
   * The lines `main` handles without an exception: a first token exists,
   * GET/DEL/INCR have a key, SET has a key and an `int`, DELVALUE has an `int`.
   */
  predicate WellFormed(line: Line) {
    && |line| > 0
    && (line[0] == "GET" || line[0] == "DEL" || line[0] == "INCR" ==> |line| >= 2)
    && (line[0] == "SET" ==> |line| >= 3 && ParseInt(line[2]).Some?)
    && (line[0] == "DELVALUE" ==> |line| >= 2 && ParseInt(line[1]).Some?)
  }

  /** A line `main` handles without an exception. */
  type ValidLine = line: Line | WellFormed(line) witness ["EXEC"]

  /** Lines that end a MULTI round. */
  predicate IsClosing(line: Line)
    requires |line| > 0
  {
    line[0] == "EXEC" || line[0] == "DISCARD"
  }

  /** Lines the MULTI block adds to its queue: all but GET, DISCARD and EXEC. */
  predicate IsQueued(line: Line)
    requires |line| > 0
  {
    line[0] != "GET" && !IsClosing(line)
  }

  /** What EXEC and DISCARD print for a queue of `n` lines. */
  function CountReply(n: nat): (s: string)
    ensures s == NOT_IN_TRANSACTION <==> n == 0
    ensures n > 0 ==> Canonical(s) && DigitsValue(s) == n
  {
    if n == 0 then NOT_IN_TRANSACTION
    else
      DecimalRoundTrip(n);
      NatToDecimal(n)
  }

  /**
   * The effect of one line on the store and what it prints, the same in both
   * modes: the five data verbs act, every other verb does nothing.
   */
  function Execute(t: Table, line: Line): (r: (Table, seq<string>))
    requires WellFormed(line)
    ensures |r.1| == (if line[0] == "GET" then 1 else 0)
    ensures line[0] == "GET" ==> r.0 == t && r.1[0] == HandleGetCommand(Lookup(t, line[1]))
    ensures line[0] !in {"SET", "DEL", "INCR", "DELVALUE"} ==> r.0 == t
  {
    var verb := line[0];
    if verb == "GET" then (t, [HandleGetCommand(Lookup(t, line[1]))])
    else if verb == "SET" then (t[line[1] := ParseInt(line[2]).value], [])
    else if verb == "DEL" then (t - {line[1]}, [])
    else if verb == "INCR" then (Increment(t, line[1]), [])
    else if verb == "DELVALUE" then (RemoveValue(t, ParseInt(line[1]).value), [])
    else (t, [])
  }

  /** One line read by `main`. */
  function Step(mode: Mode, t: Table, line: Line): (r: Outcome)
    requires WellFormed(line)
    ensures r.table == Execute(t, line).0
    ensures mode.InMulti? || line[0] == "MULTI" <==> r.mode.InMulti?
    ensures |r.out| <= 1
    ensures !(mode.InMulti? && IsClosing(line)) ==> r.out == Execute(t, line).1
    ensures mode.InMulti? && IsClosing(line) ==> r == Outcome(InMulti([]), t, [CountReply(|mode.queue|)])
    ensures mode.InMulti? && !IsClosing(line) ==>
              r.mode == InMulti(mode.queue + if IsQueued(line) then [line] else [])
    ensures mode.Normal? ==> r.mode == if line[0] == "MULTI" then InMulti([]) else Normal
  {
    match mode
    case Normal =>
      if line[0] == "MULTI" then Outcome(InMulti([]), t, [])
      else Outcome(Normal, Execute(t, line).0, Execute(t, line).1)
    case InMulti(queue) =>
      var queue' := if IsQueued(line) then queue + [line] else queue;
      var (t', out) := Execute(t, line);
      if IsClosing(line) then Outcome(InMulti([]), t', out + [CountReply(|queue'|)])
      else Outcome(InMulti(queue'), t', out)
  }

  /** `main` reading `lines` in order from `mode` and `t`. */
  function Run(mode: Mode, t: Table, lines: seq<ValidLine>): (r: Outcome)
    ensures mode.InMulti? ==> r.mode.InMulti?
  {
    if lines == [] then Outcome(mode, t, [])
    else
      var before := Run(mode, t, lines[..|lines| - 1]);
      var last := Step(before.mode, before.table, lines[|lines| - 1]);
      Outcome(last.mode, last.table, before.out + last.out)
  }

  /** The store after applying every line's data command in order, ignoring modes. */
  function ApplyAll(t: Table, lines: seq<ValidLine>): Table
  {
    if lines == [] then t
    else Execute(ApplyAll(t, lines[..|lines| - 1]), lines[|lines| - 1]).0
  }

  /** The queued lines among `lines`, in order. */
  function Queued(lines: seq<ValidLine>): seq<Line>
  {
    if lines == [] then []
    else
      var last := lines[|lines| - 1];
      Queued(lines[..|lines| - 1]) + if IsQueued(last) then [last] else []
  }

  predicate NoMulti(lines: seq<ValidLine>)
  {
    forall i :: 0 <= i < |lines| ==> lines[i][0] != "MULTI"
  }

  predicate NoClosing(lines: seq<ValidLine>)
  {
    forall i :: 0 <= i < |lines| ==> !IsClosing(lines[i])
  }

  /** Outside MULTI, EXEC, DISCARD and unknown verbs match no case: nothing changes, nothing prints. */
  lemma NormalIgnoresOtherVerbs(t: Table, line: Line)
    requires WellFormed(line)
    requires line[0] !in {"GET", "SET", "DEL", "INCR", "DELVALUE", "MULTI"}
    ensures Step(Normal, t, line) == Outcome(Normal, t, [])
  {
  }

  /**
   * Inside MULTI, the data verbs change the store and print exactly as they
   * do outside it: nothing is deferred.
   */
  lemma MultiActsLikeNormal(queue: seq<Line>, t: Table, line: Line)
    requires WellFormed(line)
    requires line[0] in {"GET", "SET", "DEL", "INCR", "DELVALUE"}
    ensures Step(InMulti(queue), t, line).table == Step(Normal, t, line).table
    ensures Step(InMulti(queue), t, line).out == Step(Normal, t, line).out
    ensures Step(InMulti(queue), t, line).mode.InMulti?
  {
  }

  /** Whatever the mode, the store evolves as if every line were applied at once. */
  lemma {:induction false} StoreIgnoresMode(mode: Mode, t: Table, lines: seq<ValidLine>)
    ensures Run(mode, t, lines).table == ApplyAll(t, lines)
  {
    if lines != [] {
      StoreIgnoresMode(mode, t, lines[..|lines| - 1]);
    }
  }

  /** The loop stays in Normal mode exactly until the first MULTI, and never leaves the block. */
  lemma {:induction false} NormalUntilMulti(t: Table, lines: seq<ValidLine>)
    ensures Run(Normal, t, lines).mode == Normal <==> NoMulti(lines)
  {
    if lines != [] {
      var init := lines[..|lines| - 1];
      NormalUntilMulti(t, init);
      assert NoMulti(lines) <==> NoMulti(init) && lines[|lines| - 1][0] != "MULTI";
    }
  }

  /** Without EXEC or DISCARD the block's queue grows by exactly the queued lines. */
  lemma {:induction false} QueueGrows(queue: seq<Line>, t: Table, lines: seq<ValidLine>)
    requires NoClosing(lines)
    ensures Run(InMulti(queue), t, lines).mode == InMulti(queue + Queued(lines))
  {
    if lines != [] {
      var init := lines[..|lines| - 1];
      QueueGrows(queue, t, init);
    }
  }

  /**
   * EXEC or DISCARD after a round of lines prints the number of queued lines
   * in that round (NOT IN TRANSACTION when there are none), undoes nothing,
   * and starts an empty queue.
   */
  lemma ClosingReportsRound(t: Table, lines: seq<ValidLine>, closing: ValidLine)
    requires IsClosing(closing)
    requires NoClosing(lines)
    ensures Run(InMulti([]), t, lines + [closing])
         == Outcome(InMulti([]), ApplyAll(t, lines),
                    Run(InMulti([]), t, lines).out + [CountReply(|Queued(lines)|)])
  {
    RunSnoc(InMulti([]), t, lines, closing);
    QueueGrows([], t, lines);
    StoreIgnoresMode(InMulti([]), t, lines);
  }

  /** Reading one more line extends a run by one step. */
  lemma RunSnoc(mode: Mode, t: Table, lines: seq<ValidLine>, line: ValidLine)
    ensures var before := Run(mode, t, lines);
            var last := Step(before.mode, before.table, line);
            Run(mode, t, lines + [line]) == Outcome(last.mode, last.table, before.out + last.out)
  {
  }

  /** Every line read prints at most one line. */
  lemma {:induction false} RunPrintsAtMostOnePerLine(mode: Mode, t: Table, lines: seq<ValidLine>)
    ensures |Run(mode, t, lines).out| <= |lines|
  {
    if lines != [] {
      RunPrintsAtMostOnePerLine(mode, t, lines[..|lines| - 1]);
    }
  }

  /** `Step` on an outcome: the next mode and store, with what it prints appended. */
  function Advance(o: Outcome, line: ValidLine): Outcome
  {
    var s := Step(o.mode, o.table, line);
    Outcome(s.mode, s.table, o.out + s.out)
  }

  /** Reading `lines` in order from `start`, one `advance` per line. */
  function Fold(advance: (Outcome, ValidLine) -> Outcome, start: Outcome, lines: seq<ValidLine>): Outcome
  {
    if lines == [] then start
    else advance(Fold(advance, start, lines[..|lines| - 1]), lines[|lines| - 1])
  }

  /** Folding over `a + b` folds over `a`, then over `b` from there. */
  lemma {:induction false} FoldAppend(advance: (Outcome, ValidLine) -> Outcome, start: Outcome,
                                      a: seq<ValidLine>, b: seq<ValidLine>)
    ensures Fold(advance, start, a + b) == Fold(advance, Fold(advance, start, a), b)
  {
    if b == [] {
      assert a + b == a;
    } else {
      FoldAppend(advance, start, a, b[..|b| - 1]);
      assert (a + b)[..|a + b| - 1] == a + b[..|b| - 1];
      assert (a + b)[|a + b| - 1] == b[|b| - 1];
    }
  }

  /** `Run` is the fold of `Advance`; starting with lines already printed only prefixes them. */
  lemma {:induction false} RunIsFold(mode: Mode, t: Table, printed: seq<string>, lines: seq<ValidLine>)
    ensures var r := Run(mode, t, lines);
            Fold(Advance, Outcome(mode, t, printed), lines) == Outcome(r.mode, r.table, printed + r.out)
  {
    if lines != [] {
      var init, line := lines[..|lines| - 1], lines[|lines| - 1];
      var before := Run(mode, t, init);
      var last := Step(before.mode, before.table, line);
      assert Fold(Advance, Outcome(mode, t, printed), lines)
          == Outcome(last.mode, last.table, (printed + before.out) + last.out) by {
        RunIsFold(mode, t, printed, init);
      }
      assert (printed + before.out) + last.out == printed + (before.out + last.out);
    }
  }

  /** A run over `a + b` is the run over `b` continued from where the run over `a` ended. */
  lemma RunAppend(mode: Mode, t: Table, a: seq<ValidLine>, b: seq<ValidLine>)
    ensures var first := Run(mode, t, a);
            var second := Run(first.mode, first.table, b);
            Run(mode, t, a + b) == Outcome(second.mode, second.table, first.out + second.out)
  {
    var first := Run(mode, t, a);
    RunIsFold(mode, t, [], a + b);
    RunIsFold(mode, t, [], a);
    FoldAppend(Advance, Outcome(mode, t, []), a, b);
    RunIsFold(first.mode, first.table, first.out, b);
    assert [] + first.out == first.out;
  }

  /** The line `SET k v`, with `v` written as `Integer.toString` writes it. */
  function SetLine(k: string, v: int32): (line: ValidLine)
    ensures line[0] == "SET" && line[1] == k && ParseInt(line[2]) == Some(v)
  {
    ["SET", k, ToDecimal(v)]
  }

  /** The lines MULTI, SET k v, DISCARD, GET k. */
  function DiscardScript(k: string, v: int32): seq<ValidLine>
  {
    var multi: ValidLine := ["MULTI"];
    var discard: ValidLine := ["DISCARD"];
    var get: ValidLine := ["GET", k];
    [multi, SetLine(k, v), discard, get]
  }

  /** The script up to DISCARD: SET inside MULTI is queued and already in the store. */
  lemma DiscardScriptQueuesSet(t: Table, k: string, v: int32)
    ensures var lines := DiscardScript(k, v);
            Run(Normal, t, lines[..2]) == Outcome(InMulti([lines[1]]), t[k := v], [])
  {
    var lines := DiscardScript(k, v);
    assert Run(Normal, t, lines[..1]) == Outcome(InMulti([]), t, []) by {
      RunSnoc(Normal, t, [], lines[0]);
      assert [] + [lines[0]] == lines[..1];
    }
    RunSnoc(Normal, t, lines[..1], lines[1]);
    assert lines[..1] + [lines[1]] == lines[..2];
  }

  /** The script up to GET: DISCARD reports the one queued line and leaves the store alone. */
  lemma DiscardScriptReports(t: Table, k: string, v: int32)
    ensures var lines := DiscardScript(k, v);
            Run(Normal, t, lines[..3]) == Outcome(InMulti([]), t[k := v], [CountReply(1)])
  {
    var lines := DiscardScript(k, v);
    DiscardScriptQueuesSet(t, k, v);
    RunSnoc(Normal, t, lines[..2], lines[2]);
    assert lines[..2] + [lines[2]] == lines[..3];
  }

  /**
   * MULTI, SET k v, DISCARD, GET k: DISCARD reports one queued line, yet the
   * SET has already reached the store, so GET prints v.
   */
  lemma DiscardKeepsEffects(t: Table, k: string, v: int32)
    ensures Run(Normal, t, DiscardScript(k, v)) == Outcome(InMulti([]), t[k := v], [CountReply(1), ToDecimal(v)])
  {
    var lines := DiscardScript(k, v);
    DiscardScriptReports(t, k, v);
    RunSnoc(Normal, t, lines[..3], lines[3]);
    assert lines[..3] + [lines[3]] == lines;
    assert Lookup(t[k := v], k) == Some(v);
  }

  /** `main`'s switch for one data line, on the object. */
  method ExecuteOn(db: Database, line: Line) returns (out: seq<string>)
    requires WellFormed(line)
    modifies db
    ensures (db.hashTable, out) == Execute(old(db.hashTable), line)
  {
    var verb := line[0];
    out := [];
    if verb == "GET" {
      var value := db.GetValueOfKey(line[1]);
      out := [HandleGetCommand(value)];
    } else if verb == "SET" {
      db.SetValueForKey(line[1], ParseInt(line[2]).value);
    } else if verb == "DEL" {
      db.DeleteKey(line[1]);
    } else if verb == "INCR" {
      db.IncrementValueForKey(line[1]);
    } else if verb == "DELVALUE" {
      db.DeleteValue(ParseInt(line[1]).value);
    }
  }

  /** One line read by `main`, on the object. */
  method Dispatch(db: Database, mode: Mode, line: Line) returns (mode': Mode, out: seq<string>)
    requires WellFormed(line)
    modifies db
    ensures Outcome(mode', db.hashTable, out) == Step(mode, old(db.hashTable), line)
  {
    match mode
    case Normal =>
      if line[0] == "MULTI" {
        mode', out := InMulti([]), [];
      } else {
        out := ExecuteOn(db, line);
        mode' := Normal;
      }
    case InMulti(queue) =>
      var transactions := queue;
      if IsQueued(line) {
        transactions := transactions + [line];
      }
      out := ExecuteOn(db, line);
      if IsClosing(line) {
        out := out + [CountReply(|transactions|)];
        mode' := InMulti([]);
      } else {
        mode' := InMulti(transactions);
      }
  }

  /** `main` over a finite input: a fresh database, then every line in order. */
  method Serve(lines: seq<ValidLine>) returns (db: Database, mode: Mode, out: seq<string>)
    ensures fresh(db)
    ensures Outcome(mode, db.hashTable, out) == Run(Normal, map[], lines)
  {
    db := new Database();
    mode, out := Normal, [];
    var i := 0;
    while i < |lines|
      invariant 0 <= i <= |lines|
      invariant Outcome(mode, db.hashTable, out) == Run(Normal, map[], lines[..i])
    {
      var printed;
      mode, printed := Dispatch(db, mode, lines[i]);
      out := out + printed;
      assert lines[..i + 1][..i] == lines[..i];
      i := i + 1;
    }
    assert lines[..i] == lines;
  }
}
