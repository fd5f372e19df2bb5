/** The sequencer (src/config/mod.rs): a `Config` holds the sorted actions and
    the cursor `current_action`, the number of actions considered applied.
    `Perform` runs a do pass forward from the cursor or an undo pass backward
    from it, stops at the first failure, and persists the cursor it reached by
    rewriting the `current_action` line of the configuration text. */
module Configuration {
  import opened Wrappers
  import opened Text
  import opened Actions

  datatype Direction = Do | Undo

  // ---------------------------------------------------------------------------
  // The configuration text: `is_current_action` and the buffer `set_current_action` writes
  // ---------------------------------------------------------------------------

  /** The line with every ' ' removed (tabs and other blanks stay). */
  function RemoveSpaces(s: string): (r: string)
    ensures |r| <= |s|
    ensures forall i :: 0 <= i < |r| ==> r[i] != ' '
  {
    if s == [] then [] else (if s[0] == ' ' then [] else [s[0]]) + RemoveSpaces(s[1..])
  }

  lemma {:induction false} RemoveSpacesAppend(a: string, b: string)
    ensures RemoveSpaces(a + b) == RemoveSpaces(a) + RemoveSpaces(b)
  {
    if a == [] {
      assert a + b == b;
    } else {
      assert (a + b)[0] == a[0];
      assert (a + b)[1..] == a[1..] + b;
      RemoveSpacesAppend(a[1..], b);
    }
  }

  lemma {:induction false} RemoveSpacesWithoutSpaces(s: string)
    requires forall i :: 0 <= i < |s| ==> s[i] != ' '
    ensures RemoveSpaces(s) == s
  {
    if s != [] {
      RemoveSpacesWithoutSpaces(s[1..]);
    }
  }

  /** A line sets the cursor when, with its spaces dropped, it begins with
      `current_action`. */
  predicate IsCurrentAction(line: string): (b: bool)
    ensures b ==> |line| >= 14
    ensures line != [] && line[0] != ' ' && line[0] != 'c' ==> !b
  {
    var r := RemoveSpaces(line);
    assert line != [] && line[0] != ' ' && |r| >= 14 ==> r[..14][0] == r[0] == line[0];
    StartsWith(r, "current_action")
  }

  /** The line that records cursor `n`. */
  function CurrentActionLine(n: nat): string {
    "current_action = " + NatToString(n)
  }

  function ReplaceLine(line: string, n: nat): string {
    if IsCurrentAction(line) then CurrentActionLine(n) else line
  }

  function ReplaceCurrentAction(lines: seq<string>, n: nat): seq<string> {
    seq(|lines|, i requires 0 <= i < |lines| => ReplaceLine(lines[i], n))
  }

  predicate HasCurrentAction(lines: seq<string>) {
    exists i :: 0 <= i < |lines| && IsCurrentAction(lines[i])
  }

  /** The lines of the rewritten configuration: each cursor line replaced by the
      one for `n`, every other line kept, and the line for `n` appended when
      there was no cursor line. */
  function RewrittenLines(lines: seq<string>, n: nat): seq<string> {
    ReplaceCurrentAction(lines, n) + (if HasCurrentAction(lines) then [] else [CurrentActionLine(n)])
  }

  /** One more line read: its replacement is appended. */
  lemma ReplaceOneMore(lines: seq<string>, i: nat, n: nat)
    requires i < |lines|
    ensures ReplaceCurrentAction(lines[..i + 1], n) == ReplaceCurrentAction(lines[..i], n) + [ReplaceLine(lines[i], n)]
  {
    var r, r' := ReplaceCurrentAction(lines[..i], n), ReplaceCurrentAction(lines[..i + 1], n);
    forall j | 0 <= j <= i ensures r'[j] == (r + [ReplaceLine(lines[i], n)])[j] {
      if j < i {
        assert lines[..i + 1][j] == lines[..i][j];
      }
    }
  }

  /** One more line read: a cursor line has been seen if one was before or this one is. */
  lemma HasOneMore(lines: seq<string>, i: nat)
    requires i < |lines|
    ensures HasCurrentAction(lines[..i + 1]) <==> HasCurrentAction(lines[..i]) || IsCurrentAction(lines[i])
  {
    if HasCurrentAction(lines[..i + 1]) {
      var j :| 0 <= j <= i && IsCurrentAction(lines[..i + 1][j]);
      if j < i {
        assert lines[..i][j] == lines[..i + 1][j];
      }
    }
    if HasCurrentAction(lines[..i]) {
      var j :| 0 <= j < i && IsCurrentAction(lines[..i][j]);
      assert lines[..i + 1][j] == lines[..i][j];
    }
    if IsCurrentAction(lines[i]) {
      assert lines[..i + 1][i] == lines[i];
    }
  }

  /** The buffer `set_current_action` builds from the configuration text. */
  method RewriteConfig(text: string, n: nat) returns (config: string)
    ensures config == JoinLines(RewrittenLines(Lines(text), n))
  {
    config := [];
    var found := false;
    var lines := Lines(text);
    for i := 0 to |lines|
      invariant config == JoinLines(ReplaceCurrentAction(lines[..i], n))
      invariant found == HasCurrentAction(lines[..i])
    {
      ReplaceOneMore(lines, i, n);
      HasOneMore(lines, i);
      JoinLinesAppend(ReplaceCurrentAction(lines[..i], n), ReplaceLine(lines[i], n));
      if IsCurrentAction(lines[i]) {
        found := true;
        config := config + CurrentActionLine(n) + "\n";
      } else {
        config := config + lines[i] + "\n";
      }
    }
    assert lines[..|lines|] == lines;
    if found {
      assert RewrittenLines(lines, n) == ReplaceCurrentAction(lines, n);
    } else {
      JoinLinesAppend(ReplaceCurrentAction(lines, n), CurrentActionLine(n));
      config := config + CurrentActionLine(n) + "\n";
    }
  }

  /** Each rewritten line for an old line, in place; one line appended exactly
      when no old line set the cursor. */
  lemma RewrittenLinesShape(lines: seq<string>, n: nat)
    ensures var r := RewrittenLines(lines, n);
            && |r| == |lines| + (if HasCurrentAction(lines) then 0 else 1)
            && (forall i :: 0 <= i < |lines| ==>
                  r[i] == if IsCurrentAction(lines[i]) then CurrentActionLine(n) else lines[i])
            && (!HasCurrentAction(lines) ==> r[|lines|] == CurrentActionLine(n))
  {
  }

  /** Every line that begins with `current_action` sets the cursor. */
  lemma StartsWithCurrentAction(line: string)
    requires StartsWith(line, "current_action")
    ensures IsCurrentAction(line)
  {
    var rest := line[14..];
    assert line == "current_action" + rest;
    RemoveSpacesWithoutSpaces("current_action");
    RemoveSpacesAppend("current_action", rest);
  }

  /** The line written for `n` is itself recognised as the cursor line. */
  lemma CurrentActionLineIsCurrentAction(n: nat)
    ensures IsCurrentAction(CurrentActionLine(n))
    ensures IsLine(CurrentActionLine(n))
  {
    var line := CurrentActionLine(n);
    assert line[..14] == "current_action";
    StartsWithCurrentAction(line);
    var s := NatToString(n);
    forall i | 0 <= i < |line| ensures line[i] != '\n' {
      if i >= 17 {
        assert line[i] == s[i - 17];
      }
    }
  }

  /** The number in the line written for `n` reads back as `n`. */
  lemma CurrentActionLineValue(n: nat)
    ensures var line := CurrentActionLine(n);
            && StartsWith(line, "current_action = ")
            && AllDigits(line[17..])
            && ParseNat(line[17..]) == n
  {
    var line := CurrentActionLine(n);
    assert line[17..] == NatToString(n);
    ParseNatToString(n);
  }

  /** After the rewrite the configuration has a cursor line, and every cursor
      line it has is the one for `n`. */
  lemma RewriteRecordsCursor(lines: seq<string>, n: nat)
    ensures HasCurrentAction(RewrittenLines(lines, n))
    ensures forall l :: l in RewrittenLines(lines, n) && IsCurrentAction(l) ==> l == CurrentActionLine(n)
  {
    CurrentActionLineIsCurrentAction(n);
    var r := RewrittenLines(lines, n);
    if HasCurrentAction(lines) {
      var i :| 0 <= i < |lines| && IsCurrentAction(lines[i]);
      assert r[i] == CurrentActionLine(n);
    } else {
      assert r[|lines|] == CurrentActionLine(n);
    }
  }

  /** Rewriting twice is rewriting once with the second value. */
  lemma RewriteTwice(lines: seq<string>, n: nat, m: nat)
    ensures RewrittenLines(RewrittenLines(lines, n), m) == RewrittenLines(lines, m)
  {
    CurrentActionLineIsCurrentAction(n);
    CurrentActionLineIsCurrentAction(m);
    RewriteRecordsCursor(lines, n);
    var r := RewrittenLines(lines, n);
    var rr := RewrittenLines(r, m);
    var s := RewrittenLines(lines, m);
    assert |rr| == |s|;
    forall i | 0 <= i < |rr| ensures rr[i] == s[i] {
      if i < |lines| {
        assert r[i] == ReplaceLine(lines[i], n);
      }
    }
  }

  /** The lines that do not set the cursor. */
  function OtherLines(lines: seq<string>): seq<string> {
    if lines == [] then []
    else (if IsCurrentAction(lines[0]) then [] else [lines[0]]) + OtherLines(lines[1..])
  }

  lemma {:induction false} OtherLinesAppend(a: seq<string>, b: seq<string>)
    ensures OtherLines(a + b) == OtherLines(a) + OtherLines(b)
  {
    if a == [] {
      assert a + b == b;
    } else {
      assert (a + b)[0] == a[0];
      assert (a + b)[1..] == a[1..] + b;
      OtherLinesAppend(a[1..], b);
    }
  }

  lemma {:induction false} OtherLinesReplaced(lines: seq<string>, n: nat)
    ensures OtherLines(ReplaceCurrentAction(lines, n)) == OtherLines(lines)
  {
    if lines != [] {
      CurrentActionLineIsCurrentAction(n);
      assert ReplaceCurrentAction(lines, n)[1..] == ReplaceCurrentAction(lines[1..], n);
      OtherLinesReplaced(lines[1..], n);
    }
  }

  /** The rewrite keeps every line that does not set the cursor, verbatim and
      in order. */
  lemma RewriteKeepsOtherLines(lines: seq<string>, n: nat)
    ensures OtherLines(RewrittenLines(lines, n)) == OtherLines(lines)
  {
    CurrentActionLineIsCurrentAction(n);
    OtherLinesReplaced(lines, n);
    var extra := if HasCurrentAction(lines) then [] else [CurrentActionLine(n)];
    OtherLinesAppend(ReplaceCurrentAction(lines, n), extra);
    assert OtherLines(extra) == [] by {
      if extra != [] {
        assert extra[1..] == [];
      }
    }
  }

  /** Reading the written buffer back as lines gives the rewritten lines. */
  lemma RewriteReadsBack(text: string, n: nat)
    ensures Lines(JoinLines(RewrittenLines(Lines(text), n))) == RewrittenLines(Lines(text), n)
  {
    CurrentActionLineIsCurrentAction(n);
    LinesAreLines(text);
    var r := RewrittenLines(Lines(text), n);
    assert forall i :: 0 <= i < |r| ==> IsLine(r[i]);
    LinesOfJoinLines(r);
  }

  /** Persisting the cursor the text already records writes the text back
      unchanged (with a final '\n' added if it had none). */
  lemma RewriteRecordedCursorIsIdentity(text: string, n: nat)
    requires HasCurrentAction(Lines(text))
    requires forall i :: 0 <= i < |Lines(text)| && IsCurrentAction(Lines(text)[i]) ==>
                         Lines(text)[i] == CurrentActionLine(n)
    ensures JoinLines(RewrittenLines(Lines(text), n)) ==
            if text == [] || text[|text| - 1] == '\n' then text else text + "\n"
  {
    var lines := Lines(text);
    RewrittenLinesShape(lines, n);
    assert RewrittenLines(lines, n) == lines;
    JoinLinesOfLines(text);
  }

  /** `is_current_action` drops only spaces before testing the prefix: a space
      anywhere in a line never changes whether it sets the cursor (so
      `current _action=1` does), while any other character does. */
  lemma SpacesAreIgnored(a: string, b: string)
    ensures IsCurrentAction(a + " " + b) <==> IsCurrentAction(a + b)
  {
    RemoveSpacesAppend(a + " ", b);
    RemoveSpacesAppend(a, " ");
    RemoveSpacesAppend(a, b);
    assert RemoveSpaces(" ") == [];
    assert RemoveSpaces(a + " ") == RemoveSpaces(a);
    assert RemoveSpaces(a + " " + b) == RemoveSpaces(a + b);
  }

  /** A tab is not dropped, so a tab-indented cursor line is not recognised. */
  lemma TabIndentedIsNotCurrentAction(line: string)
    ensures !IsCurrentAction("\t" + line)
  {
    var r := RemoveSpaces("\t" + line);
    assert r == ['\t'] + RemoveSpaces(("\t" + line)[1..]);
    if |r| >= 14 {
      assert r[..14][0] == '\t';
    }
  }

  /** A line that departs from `current_action` at position `k`, with no
      space before that, does not set the cursor. */
  lemma DepartingLineIsNotCurrentAction(line: string, k: nat)
    requires k < |line| && k < 14
    requires forall i :: 0 <= i <= k ==> line[i] != ' '
    requires line[k] != "current_action"[k]
    ensures !IsCurrentAction(line)
  {
    var p, rest := line[..k + 1], line[k + 1..];
    assert line == p + rest;
    RemoveSpacesWithoutSpaces(p);
    RemoveSpacesAppend(p, rest);
    var r := RemoveSpaces(line);
    if |r| >= 14 {
      assert r[..14][k] == p[k];
    }
  }

  /** When only the last line sets the cursor, the rewrite replaces that line
      and keeps every other one. */
  lemma RewriteLastCursorLine(others: seq<string>, m: nat, n: nat)
    requires forall i :: 0 <= i < |others| ==> !IsCurrentAction(others[i])
    ensures RewrittenLines(others + [CurrentActionLine(m)], n) == others + [CurrentActionLine(n)]
  {
    CurrentActionLineIsCurrentAction(m);
    var lines := others + [CurrentActionLine(m)];
    assert IsCurrentAction(lines[|others|]);
    RewrittenLinesShape(lines, n);
  }

  /** The settings lines of the configuration the do/undo test writes. */
  const TestSettings: seq<string> :=
    ["command = \"sh\"", "root = \"tests/sequence\"", "[special]", "[special.3]", "command = \"special\""]

  const SettingsText: string :=
    "command = \"sh\"\n" + "root = \"tests/sequence\"\n" + "[special]\n" + "[special.3]\n" + "command = \"special\"\n"
  const Config0: string := SettingsText + "current_action = 0\n"
  const Config3: string := SettingsText + "current_action = 3\n"

  lemma TestSettingIsNotCursorLine(i: nat)
    requires i < |TestSettings|
    ensures !IsCurrentAction(TestSettings[i])
  {
    // each settings line departs from `current_action` at its first or second character
    var k := if i == 0 || i == 4 then 1 else 0;
    DepartingLineIsNotCurrentAction(TestSettings[i], k);
  }

  lemma TestSettingsText()
    ensures JoinLines(TestSettings) == SettingsText
  {
  }

  lemma TestConfigText(m: nat)
    requires m == 0 || m == 3
    ensures CurrentActionLine(m) == if m == 0 then "current_action = 0" else "current_action = 3"
    ensures JoinLines(TestSettings + [CurrentActionLine(m)]) == if m == 0 then Config0 else Config3
  {
    TestSettingsText();
    JoinLinesAppend(TestSettings, CurrentActionLine(m));
    if m == 0 {
      assert NatToString(0) == "0";
    } else {
      assert NatToString(3) == "3";
    }
  }

  /** The test's configuration text with cursor `m` splits into the settings
      lines followed by the cursor line. */
  lemma TestConfigLines(m: nat)
    requires m == 0 || m == 3
    ensures Lines(if m == 0 then Config0 else Config3) == TestSettings + [CurrentActionLine(m)]
  {
    TestConfigText(m);
    var lines := TestSettings + [CurrentActionLine(m)];
    forall i | 0 <= i < |lines|
      ensures IsLine(lines[i])
    {
      if i < |TestSettings| {
        TestSettingIsLine(i);
      } else {
        CurrentActionLineIsCurrentAction(m);
      }
    }
    LinesOfJoinLines(lines);
  }

  lemma TestSettingIsLine(i: nat)
    requires i < |TestSettings|
    ensures IsLine(TestSettings[i])
  {
  }

  /** The configuration of the do/undo test: persisting 3 over cursor 0 gives
      the second text, the cursor line rewritten in place, and persisting 0
      over cursor 3 gives the first back. */
  lemma RewriteTestConfiguration(m: nat, n: nat)
    requires m == 0 || m == 3
    requires n == 0 || n == 3
    ensures var before := if m == 0 then Config0 else Config3;
            var after := if n == 0 then Config0 else Config3;
            JoinLines(RewrittenLines(Lines(before), n)) == after
  {
    forall i | 0 <= i < |TestSettings| ensures !IsCurrentAction(TestSettings[i]) {
      TestSettingIsNotCursorLine(i);
    }
    TestConfigLines(m);
    RewriteLastCursorLine(TestSettings, m, n);
    TestConfigText(n);
  }

  // ---------------------------------------------------------------------------
  // The passes
  // ---------------------------------------------------------------------------

  /** Running one action's script in the pass's direction. */
  function Run(a: Action, direction: Direction, spawn: Spawn): Result<string, string> {
    match direction
    case Do => DoCommand(a, spawn)
    case Undo => UndoCommand(a, spawn)
  }

  function Reverse<T>(s: seq<T>): (r: seq<T>)
    ensures |r| == |s|
    ensures forall i :: 0 <= i < |s| ==> r[i] == s[|s| - 1 - i]
  {
    if s == [] then [] else [s[|s| - 1]] + Reverse(s[..|s| - 1])
  }

  lemma {:induction false} ReverseKeepsElements<T>(s: seq<T>)
    ensures multiset(Reverse(s)) == multiset(s)
  {
    if s != [] {
      ReverseKeepsElements(s[..|s| - 1]);
      assert s == s[..|s| - 1] + [s[|s| - 1]];
    }
  }

  /** The cursor is at the end the pass moves towards: nothing to do. */
  predicate AtBoundary(cursor: nat, count: nat, direction: Direction) {
    (direction == Do && cursor == count) || (direction == Undo && cursor == 0)
  }

  /** The actions a pass visits, in visiting order: from the cursor up for a do
      pass, from the cursor down for an undo pass. */
  function Pending(actions: seq<Action>, cursor: nat, direction: Direction): seq<Action>
    requires cursor <= |actions|
  {
    match direction
    case Do => actions[cursor..]
    case Undo => Reverse(actions[..cursor])
  }

  /** The stored list once a pass has chosen its actions: an undo pass reverses
      the prefix before the cursor in place. */
  function Reordered(actions: seq<Action>, cursor: nat, direction: Direction): seq<Action>
    requires cursor <= |actions|
  {
    match direction
    case Do => actions
    case Undo => Reverse(actions[..cursor]) + actions[cursor..]
  }

  /** How many actions at the front of `pending` succeed before the first failure. */
  function LeadingSuccesses(pending: seq<Action>, direction: Direction, spawn: Spawn): (k: nat)
    ensures k <= |pending|
    ensures forall j :: 0 <= j < k ==> Run(pending[j], direction, spawn).Ok?
    ensures k < |pending| ==> Run(pending[k], direction, spawn).Err?
  {
    if pending == [] || Run(pending[0], direction, spawn).Err? then 0
    else 1 + LeadingSuccesses(pending[1..], direction, spawn)
  }

  /** The cursor after `k` successful steps from `cursor`. */
  function Reached(cursor: nat, direction: Direction, k: nat): nat
    requires direction == Undo ==> k <= cursor
  {
    match direction
    case Do => cursor + k
    case Undo => cursor - k
  }

  /** A do pass visits `actions[c], actions[c+1], ...`; an undo pass visits
      `actions[c-1], ..., actions[0]`. */
  lemma PendingOrder(actions: seq<Action>, cursor: nat, direction: Direction)
    requires cursor <= |actions|
    ensures direction == Do ==>
      |Pending(actions, cursor, Do)| == |actions| - cursor &&
      forall j :: 0 <= j < |actions| - cursor ==> Pending(actions, cursor, Do)[j] == actions[cursor + j]
    ensures direction == Undo ==>
      |Pending(actions, cursor, Undo)| == cursor &&
      forall j :: 0 <= j < cursor ==> Pending(actions, cursor, Undo)[j] == actions[cursor - 1 - j]
  {
  }

  /** The reached cursor stays within `[0, |actions|]`: a do pass never moves
      it down, an undo pass never moves it up nor below zero. */
  lemma ReachedInRange(actions: seq<Action>, cursor: nat, direction: Direction, spawn: Spawn)
    requires cursor <= |actions|
    ensures var k := LeadingSuccesses(Pending(actions, cursor, direction), direction, spawn);
            && (direction == Undo ==> k <= cursor)
            && Reached(cursor, direction, k) <= |actions|
            && (direction == Do ==> cursor <= Reached(cursor, direction, k))
            && (direction == Undo ==> Reached(cursor, direction, k) <= cursor)
  {
    PendingOrder(actions, cursor, direction);
  }

  /** An undo pass leaves the stored list a permutation of the old one: the
      prefix before the cursor reversed, the rest untouched. A do pass leaves
      it as it was. */
  lemma ReorderedIsPermutation(actions: seq<Action>, cursor: nat, direction: Direction)
    requires cursor <= |actions|
    ensures var r := Reordered(actions, cursor, direction);
            && multiset(r) == multiset(actions)
            && |r| == |actions|
            && r[cursor..] == actions[cursor..]
            && r[..cursor] == (if direction == Do then actions[..cursor] else Reverse(actions[..cursor]))
  {
    if direction == Undo {
      ReverseKeepsElements(actions[..cursor]);
      assert actions == actions[..cursor] + actions[cursor..];
    }
  }

  /** After `k` steps of a pass, the actions still pending from the new cursor
      are the ones the pass had not reached. */
  lemma PendingAfter(actions: seq<Action>, cursor: nat, direction: Direction, k: nat)
    requires cursor <= |actions|
    requires k <= |Pending(actions, cursor, direction)|
    ensures direction == Undo ==> k <= cursor
    ensures Reached(cursor, direction, k) <= |actions|
    ensures Pending(actions, Reached(cursor, direction, k), direction) == Pending(actions, cursor, direction)[k..]
  {
    PendingOrder(actions, cursor, direction);
    var p := Pending(actions, cursor, direction);
    match direction {
      case Do =>
        assert actions[cursor..][k..] == actions[cursor + k..];
      case Undo =>
        var q := Reverse(actions[..cursor - k]);
        forall j | 0 <= j < |q| ensures q[j] == p[k..][j] {
          assert p[k..][j] == p[k + j];
        }
    }
  }

  /** Resuming: a later pass in the same direction, from the reached cursor over
      the same list freshly discovered (a new run of the program), visits
      exactly the actions this pass left unvisited, starting with the one that
      failed. This is not a statement about a second undo pass on the same
      `Config` object: an undo pass leaves that object's list reordered (see
      `Reordered`), so a second undo pass on it revisits actions the first one
      already undid. */
  lemma ResumeVisitsTheRest(actions: seq<Action>, cursor: nat, direction: Direction, spawn: Spawn)
    requires cursor <= |actions|
    ensures var p := Pending(actions, cursor, direction);
            var k := LeadingSuccesses(p, direction, spawn);
            && (direction == Undo ==> k <= cursor)
            && Reached(cursor, direction, k) <= |actions|
            && Pending(actions, Reached(cursor, direction, k), direction) == p[k..]
  {
    var p := Pending(actions, cursor, direction);
    PendingAfter(actions, cursor, direction, LeadingSuccesses(p, direction, spawn));
  }

  /** When every script succeeds, a do pass from any cursor reaches the end and
      an undo pass from the end comes back to zero. */
  lemma FullRoundTrip(actions: seq<Action>, cursor: nat, spawn: Spawn)
    requires cursor <= |actions|
    requires forall a :: a in actions ==> Run(a, Do, spawn).Ok? && Run(a, Undo, spawn).Ok?
    ensures Reached(cursor, Do, LeadingSuccesses(Pending(actions, cursor, Do), Do, spawn)) == |actions|
    ensures LeadingSuccesses(Pending(actions, |actions|, Undo), Undo, spawn) == |actions|
    ensures Reached(|actions|, Undo, LeadingSuccesses(Pending(actions, |actions|, Undo), Undo, spawn)) == 0
  {
    PendingOrder(actions, cursor, Do);
    PendingOrder(actions, |actions|, Undo);
  }

  /** The loop of `perform`: run the pending actions in order, move the cursor
      one step per success, and stop at the first failure. */
  method RunPass(pending: seq<Action>, direction: Direction, spawn: Spawn, cursor: nat)
    returns (attempted: seq<Action>, failure: Option<string>, reached: nat)
    requires direction == Undo ==> |pending| <= cursor
    ensures var k := LeadingSuccesses(pending, direction, spawn);
            && (direction == Undo ==> k <= cursor)
            && attempted == pending[..if k < |pending| then k + 1 else k]
            && failure == (if k < |pending| then Some(Run(pending[k], direction, spawn).error) else None)
            && reached == Reached(cursor, direction, k)
  {
    attempted, failure, reached := [], None, cursor;
    var i := 0;
    while i < |pending|
      invariant i <= |pending|
      invariant forall j :: 0 <= j < i ==> Run(pending[j], direction, spawn).Ok?
      invariant attempted == pending[..i]
      invariant direction == Undo ==> i <= cursor
      invariant reached == Reached(cursor, direction, i)
    {
      var outcome := Run(pending[i], direction, spawn);
      attempted := attempted + [pending[i]];
      if outcome.Err? {
        failure := Some(outcome.error);
        break;
      }
      match direction {
        case Do => reached := reached + 1;
        case Undo => reached := reached - 1;
      }
      i := i + 1;
    }
    LeadingSuccessesIs(pending, direction, spawn, i);
  }

  /** `LeadingSuccesses` is the index of the first failure, or the length when
      there is none. */
  lemma {:induction false} LeadingSuccessesIs(pending: seq<Action>, direction: Direction, spawn: Spawn, i: nat)
    requires i <= |pending|
    requires forall j :: 0 <= j < i ==> Run(pending[j], direction, spawn).Ok?
    requires i < |pending| ==> Run(pending[i], direction, spawn).Err?
    ensures LeadingSuccesses(pending, direction, spawn) == i
  {
    if i > 0 {
      assert Run(pending[0], direction, spawn).Ok?;
      forall j | 0 <= j < i - 1 ensures Run(pending[1..][j], direction, spawn).Ok? {
        assert pending[1..][j] == pending[j + 1];
      }
      LeadingSuccessesIs(pending[1..], direction, spawn, i - 1);
    }
  }

  // ---------------------------------------------------------------------------
  // Persistence and the Config object
  // ---------------------------------------------------------------------------

  /** What the configuration file does when the cursor is persisted: opening
      and reading it yields its text or an error; seeking to the start and
      writing may each fail with an error. */
  datatype ConfigFile = ConfigFile(contents: Result<string, string>, seekError: Option<string>, writeError: Option<string>)

  /** The outcome `set_current_action` reports for a file. */
  function WriteOutcome(file: ConfigFile): (r: Result<(), string>)
    ensures r.Ok? <==> file.contents.Ok? && file.seekError.None? && file.writeError.None?
  {
    if file.contents.Err? then Err(file.contents.error)
    else if file.seekError.Some? then Err(file.seekError.value)
    else if file.writeError.Some? then Err(file.writeError.value)
    else Ok(())
  }

  /** The buffer written to the file at offset 0, when a write is attempted. */
  function WrittenBuffer(file: ConfigFile, n: nat): Option<string> {
    if file.contents.Ok? && file.seekError.None? then Some(JoinLines(RewrittenLines(Lines(file.contents.value), n)))
    else None
  }

  /** What one call of `perform` did. */
  datatype Report =
    | InvalidCursor
    | NothingToDo
    | Performed(attempted: seq<Action>, failure: Option<string>, reached: nat,
                persisted: Result<(), string>, written: Option<string>)

  class Config {
    var actions: seq<Action>
    var currentAction: nat

    constructor (actions: seq<Action>, currentAction: nat)
      ensures this.actions == actions && this.currentAction == currentAction
    {
      this.actions := actions;
      this.currentAction := currentAction;
    }

    /** `Config::read` once the configuration has been parsed: discover the
        actions under the root and start at the configured cursor. */
    static method Read(root: Path, listing: Result<seq<Entry>, string>, cmd: string, special: Special, currentAction: nat)
      returns (r: Result<Config, string>)
      ensures r.Err? <==> Discovered(root, listing, cmd, special).Err?
      ensures r.Err? ==> r.error == Discovered(root, listing, cmd, special).error
      ensures r.Ok? ==> fresh(r.value) && r.value.actions == Discovered(root, listing, cmd, special).value &&
                        r.value.currentAction == currentAction
    {
      var found := FindActions(root, listing, cmd, special);
      match found {
        case Err(err) =>
          r := Err(err);
        case Ok(actions) =>
          var config := new Config(actions, currentAction);
          r := Ok(config);
      }
    }

    /** Persist cursor `n`: rewrite the configuration text, write it back, and
        adopt `n` only once the write has succeeded. */
    method SetCurrentAction(n: nat, file: ConfigFile) returns (r: Result<(), string>, written: Option<string>)
      modifies this`currentAction
      ensures r == WriteOutcome(file)
      ensures written == WrittenBuffer(file, n)
      ensures currentAction == if r.Ok? then n else old(currentAction)
    {
      written := None;
      if file.contents.Err? {
        return Err(file.contents.error), None;
      }
      var config := RewriteConfig(file.contents.value, n);
      if file.seekError.Some? {
        return Err(file.seekError.value), None;
      }
      written := Some(config);
      if file.writeError.Some? {
        return Err(file.writeError.value), written;
      }
      currentAction := n;
      r := Ok(());
    }

    /** One pass in `direction`, then one attempt to persist the cursor reached. */
    method Perform(direction: Direction, spawn: Spawn, file: ConfigFile) returns (report: Report)
      modifies this
      ensures old(currentAction) > |old(actions)| ==>
        report == InvalidCursor && actions == old(actions) && currentAction == old(currentAction)
      ensures old(currentAction) <= |old(actions)| && AtBoundary(old(currentAction), |old(actions)|, direction) ==>
        report == NothingToDo && actions == old(actions) && currentAction == old(currentAction)
      ensures old(currentAction) <= |old(actions)| && !AtBoundary(old(currentAction), |old(actions)|, direction) ==>
        var c := old(currentAction);
        var pending := Pending(old(actions), c, direction);
        var k := LeadingSuccesses(pending, direction, spawn);
        && (direction == Undo ==> k <= c)
        && actions == Reordered(old(actions), c, direction)
        && report.Performed?
        && report.attempted == pending[..if k < |pending| then k + 1 else k]
        && report.failure == (if k < |pending| then Some(Run(pending[k], direction, spawn).error) else None)
        && report.reached == Reached(c, direction, k)
        && report.persisted == WriteOutcome(file)
        && report.written == WrittenBuffer(file, report.reached)
        && currentAction == if report.persisted.Ok? then report.reached else c
    {
      var count := |actions|;
      var cursor: nat := currentAction;
      if cursor > count {
        return InvalidCursor;
      } else if (direction == Do && cursor == count) || (direction == Undo && cursor == 0) {
        return NothingToDo;
      }
      var pending: seq<Action>;
      match direction {
        case Do =>
          pending := actions[cursor..];
        case Undo =>
          actions := Reverse(actions[..cursor]) + actions[cursor..];
          pending := actions[..cursor];
      }
      assert pending == Pending(old(actions), cursor, direction);
      var attempted, failure, reached := RunPass(pending, direction, spawn, cursor);
      var persisted, written := SetCurrentAction(reached, file);
      report := Performed(attempted, failure, reached, persisted, written);
    }
  }

  /** The do pass of the do/undo test, over three actions whose scripts all
      succeed, from cursor 0 against the first configuration text. */
  lemma TestDoPass(actions: seq<Action>, spawn: Spawn)
    requires |actions| == 3
    requires forall a :: a in actions ==> Run(a, Do, spawn).Ok? && Run(a, Undo, spawn).Ok?
    ensures Pending(actions, 0, Do) == actions
    ensures LeadingSuccesses(actions, Do, spawn) == 3
    ensures WrittenBuffer(ConfigFile(Ok(Config0), None, None), 3) == Some(Config3)
  {
    FullRoundTrip(actions, 0, spawn);
    assert actions[0..] == actions;
    TestWrite(0, 3);
  }

  /** The undo pass of the do/undo test, from cursor 3 against the second text. */
  lemma TestUndoPass(actions: seq<Action>, spawn: Spawn)
    requires |actions| == 3
    requires forall a :: a in actions ==> Run(a, Do, spawn).Ok? && Run(a, Undo, spawn).Ok?
    ensures Pending(actions, 3, Undo) == Reverse(actions)
    ensures Reordered(actions, 3, Undo) == Reverse(actions)
    ensures LeadingSuccesses(Reverse(actions), Undo, spawn) == 3
    ensures WrittenBuffer(ConfigFile(Ok(Config3), None, None), 0) == Some(Config0)
  {
    FullRoundTrip(actions, 0, spawn);
    assert actions[..3] == actions;
    assert actions[3..] == [];
    assert Reverse(actions) + [] == Reverse(actions);
    TestWrite(3, 0);
  }

  /** Persisting cursor `n` over the test text with cursor `m`, on a file that
      opens, reads and seeks, writes the test text with cursor `n`. */
  lemma TestWrite(m: nat, n: nat)
    requires m == 0 || m == 3
    requires n == 0 || n == 3
    ensures WrittenBuffer(ConfigFile(Ok(if m == 0 then Config0 else Config3), None, None), n)
         == Some(if n == 0 then Config0 else Config3)
  {
    RewriteTestConfiguration(m, n);
  }

  /** The do/undo test: a configuration at cursor 0 over three actions whose
      scripts all succeed. Performing Do runs all three, writes the text with
      cursor 3 and adopts 3; performing Undo on the same object, against the
      file as that write left it, runs the three backwards, writes the text
      with cursor 0 and adopts 0. The undo pass leaves the stored list reversed. */
  method PerformDoUndo(actions: seq<Action>, spawn: Spawn)
    returns (first: Report, second: Report, stored: seq<Action>, cursor: nat)
    requires |actions| == 3
    requires forall a :: a in actions ==> Run(a, Do, spawn).Ok? && Run(a, Undo, spawn).Ok?
    ensures first == Performed(actions, None, 3, Ok(()), Some(Config3))
    ensures second == Performed(Reverse(actions), None, 0, Ok(()), Some(Config0))
    ensures stored == Reverse(actions) && cursor == 0
  {
    var config := new Config(actions, 0);
    TestDoPass(actions, spawn);
    first := config.Perform(Do, spawn, ConfigFile(Ok(Config0), None, None));
    assert actions[..3] == actions;
    TestUndoPass(actions, spawn);
    second := config.Perform(Undo, spawn, ConfigFile(Ok(first.written.value), None, None));
    stored, cursor := config.actions, config.currentAction;
  }
}
