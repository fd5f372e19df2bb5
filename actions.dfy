/** Action discovery and resolution (src/config/action.rs): which entries of
    the root directory are actions, what their sort key is, which command and
    which do/undo scripts they use, the order they are run in, and how a
    script is turned into a process invocation. */
module Actions {
  import opened Wrappers
  import opened Text

  // ---------------------------------------------------------------------------
  // Paths, listings and the process collaborator
  // ---------------------------------------------------------------------------

  /** A filesystem path as its list of components; `p + [name]` is `p.join(name)`. */
  type Path = seq<string>

  /** `Path::filename_str`: the last component. */
  function FileName(p: Path): string {
    if p == [] then "" else p[|p| - 1]
  }

  /** `Path::dir_path`: every component but the last. */
  function DirPath(p: Path): Path {
    if p == [] then [] else p[..|p| - 1]
  }

  /** One entry of the root directory as `fs::readdir` and `is_dir` see it:
      its name, whether it is a directory, and what reading it as a directory
      yields (a list of entry names, or the I/O error's description). */
  datatype Entry = Entry(name: string, isDir: bool, listing: Result<seq<string>, string>)

  /** The `special` override table, keyed by decimal sort key. Under a key it
      holds `Some(c)` when that entry has a string field `command` equal to `c`,
      and `None` when the entry has no such field. */
  type Special = map<string, Option<string>>

  /** What is handed to the process-execution collaborator: the program, its
      arguments and the working directory. */
  datatype Invocation = Invocation(program: string, args: seq<string>, cwd: Path)

  /** The process-execution collaborator: spawn, wait, and return the captured
      standard output on a zero exit or the error text otherwise. */
  type Spawn = Invocation -> Result<string, string>

  const SpecialInvalid: string := "'special' is invalid"
  const NoDoFile: string := "No 'do' file"
  const NoUndoFile: string := "No 'undo' file"

  datatype Action = Action(name: string, command: string, doFile: Option<Path>, undoFile: Option<Path>)

  // ---------------------------------------------------------------------------
  // The sort key: `number`
  // ---------------------------------------------------------------------------

  /** The sort key of a name: the sum of the face values of the digits in its
      maximal leading run of digits (not the integer those digits spell). */
  function LeadingDigitSum(name: string): nat {
    if name == [] || !IsDigit(name[0]) then 0 else DigitValue(name[0]) + LeadingDigitSum(name[1..])
  }

  /** The length of the maximal leading run of digits. */
  function LeadingDigitRun(name: string): (n: nat)
    ensures n <= |name|
    ensures forall i :: 0 <= i < n ==> IsDigit(name[i])
    ensures n < |name| ==> !IsDigit(name[n])
  {
    if name == [] || !IsDigit(name[0]) then 0 else 1 + LeadingDigitRun(name[1..])
  }

  /** The sum of the face values of a string of digits. */
  function DigitSum(s: string): nat
    requires AllDigits(s)
  {
    if s == [] then 0 else DigitValue(s[0]) + DigitSum(s[1..])
  }

  /** The key is the digit sum of exactly the maximal leading digit run. */
  lemma {:induction false} LeadingDigitSumIsRunSum(name: string)
    ensures LeadingDigitSum(name) == DigitSum(name[..LeadingDigitRun(name)])
    ensures LeadingDigitSum(name) <= 9 * LeadingDigitRun(name)
  {
    if name != [] && IsDigit(name[0]) {
      LeadingDigitSumIsRunSum(name[1..]);
      var n := LeadingDigitRun(name);
      assert name[..n][1..] == name[1..][..n - 1];
    }
  }

  /** `number`: the accumulator loop that stops at the first non-digit. */
  method Number(name: string) returns (result: nat)
    ensures result == LeadingDigitSum(name)
  {
    result := 0;
    var i := 0;
    while i < |name|
      invariant i <= |name|
      invariant result + LeadingDigitSum(name[i..]) == LeadingDigitSum(name)
    {
      if !IsDigit(name[i]) {
        break;
      }
      assert name[i..][1..] == name[i + 1..];
      result := result + DigitValue(name[i]);
      i := i + 1;
    }
  }

  lemma NumberExamples()
    ensures LeadingDigitSum("12-setup") == 3
    ensures LeadingDigitSum("9-x") == 9
    ensures LeadingDigitSum("setup-1") == 0
    ensures LeadingDigitSum("") == 0
  {
    assert "12-setup"[1..] == "2-setup";
    assert "2-setup"[1..] == "-setup";
    assert "9-x"[1..] == "-x";
  }

  // ---------------------------------------------------------------------------
  // Scanning: `valid_action_dir` and `select_files`
  // ---------------------------------------------------------------------------

  /** An action directory's name begins with a digit. */
  predicate ValidActionName(name: string) {
    |name| > 0 && IsDigit(name[0])
  }

  /** `valid_action_dir`: a directory whose name has a non-empty leading run of
      digits, the run whose digit sum is the action's key. */
  predicate ValidActionDir(e: Entry): (b: bool)
    ensures b <==> e.isDir && LeadingDigitRun(e.name) > 0
  {
    ValidActionName(e.name) && e.isDir
  }

  /** The root listing filtered by `valid_action_dir`, in listing order. */
  function ActionDirs(entries: seq<Entry>): (dirs: seq<Entry>)
    ensures |dirs| <= |entries|
    ensures forall i :: 0 <= i < |dirs| ==> ValidActionDir(dirs[i]) && dirs[i] in entries
    ensures forall i :: 0 <= i < |entries| && ValidActionDir(entries[i]) ==> entries[i] in dirs
  {
    if entries == [] then []
    else (if ValidActionDir(entries[0]) then [entries[0]] else []) + ActionDirs(entries[1..])
  }

  /** The filter works entry by entry: the kept entries of a listing are the
      kept entries of its first part followed by those of the rest, so order
      and multiplicity are those of the listing. */
  lemma {:induction false} ActionDirsAppend(a: seq<Entry>, b: seq<Entry>)
    ensures ActionDirs(a + b) == ActionDirs(a) + ActionDirs(b)
  {
    if a == [] {
      assert a + b == b;
    } else {
      assert (a + b)[0] == a[0];
      assert (a + b)[1..] == a[1..] + b;
      ActionDirsAppend(a[1..], b);
    }
  }

  /** A single entry is kept exactly when it is an action directory. */
  lemma ActionDirsSingle(e: Entry)
    ensures ActionDirs([e]) == if ValidActionDir(e) then [e] else []
  {
    assert [e][1..] == [];
  }

  /** The index of the first name with the given prefix, or `|names|`. */
  function FirstWithPrefix(names: seq<string>, prefix: string): (i: nat)
    ensures i <= |names|
    ensures forall j :: 0 <= j < i ==> !StartsWith(names[j], prefix)
    ensures i < |names| ==> StartsWith(names[i], prefix)
  {
    if names == [] || StartsWith(names[0], prefix) then 0 else 1 + FirstWithPrefix(names[1..], prefix)
  }

  /** `select_files(dir, |name, _| name.starts_with(prefix)).into_iter().next()`:
      the path of the first entry of the directory, in listing order, whose name
      has the prefix; `None` if there is none. */
  function SelectFile(dir: Path, names: seq<string>, prefix: string): (r: Option<Path>)
    ensures r.None? <==> forall j :: 0 <= j < |names| ==> !StartsWith(names[j], prefix)
    ensures r.Some? ==> DirPath(r.value) == dir && StartsWith(FileName(r.value), prefix)
    ensures r.Some? ==> exists i :: 0 <= i < |names| && names[i] == FileName(r.value) &&
                                    forall j :: 0 <= j < i ==> !StartsWith(names[j], prefix)
  {
    var i := FirstWithPrefix(names, prefix);
    if i < |names| then
      assert (dir + [names[i]])[..|dir|] == dir;
      Some(dir + [names[i]])
    else None
  }

  /** A name that starts with `undo` never starts with `do`, so an `undo` script
      is never taken for the `do` script. */
  lemma UndoIsNeverDo(name: string)
    requires StartsWith(name, "undo")
    ensures !StartsWith(name, "do")
  {
    assert name[0] == 'u';
  }

  // ---------------------------------------------------------------------------
  // Resolution of one action directory
  // ---------------------------------------------------------------------------

  /** The command of the action called `name`: the override stored under the
      decimal form of its key, if there is one; the default command otherwise.
      An override without a string `command` is an error. */
  function ResolveCommand(name: string, cmd: string, special: Special): (r: Result<string, string>)
    ensures r.Err? ==> r.error == SpecialInvalid
    ensures NatToString(LeadingDigitSum(name)) !in special ==> r == Ok(cmd)
    ensures var key := NatToString(LeadingDigitSum(name));
            key in special ==> r == (if special[key].Some? then Ok(special[key].value) else Err(SpecialInvalid))
  {
    var key := NatToString(LeadingDigitSum(name));
    if key !in special then Ok(cmd)
    else match special[key]
      case Some(c) => Ok(c)
      case None => Err(SpecialInvalid)
  }

  /** The action built from one action directory under `root`, or the error
      that stops discovery: the directory cannot be read, or its override is
      invalid. */
  function Resolve(root: Path, e: Entry, cmd: string, special: Special): (r: Result<Action, string>)
    ensures r.Ok? <==> e.listing.Ok? && ResolveCommand(e.name, cmd, special).Ok?
    ensures r.Ok? ==> r.value.name == e.name && r.value.command == ResolveCommand(e.name, cmd, special).value
    ensures r.Ok? ==> r.value.doFile == SelectFile(root + [e.name], e.listing.value, "do") &&
                      r.value.undoFile == SelectFile(root + [e.name], e.listing.value, "undo")
    ensures r.Err? ==> r.error == (if e.listing.Err? then e.listing.error else SpecialInvalid)
  {
    match e.listing
    case Err(err) => Err(err)
    case Ok(names) =>
      var dir := root + [e.name];
      match ResolveCommand(e.name, cmd, special)
      case Err(err) => Err(err)
      case Ok(c) => Ok(Action(e.name, c, SelectFile(dir, names, "do"), SelectFile(dir, names, "undo")))
  }

  /** The outcome of each directory, in listing order. */
  function Resolutions(root: Path, dirs: seq<Entry>, cmd: string, special: Special): (rs: seq<Result<Action, string>>)
    ensures |rs| == |dirs|
  {
    seq(|dirs|, i requires 0 <= i < |dirs| => Resolve(root, dirs[i], cmd, special))
  }

  /** The `try!` of a loop over outcomes: the values of all of them, or the
      error of the first that failed; never a partial list. */
  function Collect<T>(rs: seq<Result<T, string>>): Result<seq<T>, string> {
    if rs == [] then Ok([])
    else match rs[0]
      case Err(err) => Err(err)
      case Ok(a) =>
        match Collect(rs[1..])
        case Err(err) => Err(err)
        case Ok(rest) => Ok([a] + rest)
  }

  /** Every directory resolved in listing order; the first failure wins. */
  function ResolveAll(root: Path, dirs: seq<Entry>, cmd: string, special: Special): Result<seq<Action>, string> {
    Collect(Resolutions(root, dirs, cmd, special))
  }

  /** Collecting succeeds exactly when every outcome is a success, and then
      yields each outcome's value at its position. */
  lemma {:induction false} CollectOk<T>(rs: seq<Result<T, string>>)
    ensures Collect(rs).Ok? <==> forall i :: 0 <= i < |rs| ==> rs[i].Ok?
    ensures Collect(rs).Ok? ==> |Collect(rs).value| == |rs| &&
                                forall i :: 0 <= i < |rs| ==> Collect(rs).value[i] == rs[i].value
  {
    if rs != [] {
      CollectOk(rs[1..]);
      assert forall i :: 1 <= i < |rs| ==> rs[i] == rs[1..][i - 1];
    }
  }

  /** When the outcomes before `i` are successes and outcome `i` is not,
      collecting fails with the error of outcome `i`. */
  lemma {:induction false} FirstFailureWins<T>(rs: seq<Result<T, string>>, i: nat)
    requires i < |rs|
    requires forall j :: 0 <= j < i ==> rs[j].Ok?
    requires rs[i].Err?
    ensures Collect(rs) == Err(rs[i].error)
  {
    if i > 0 {
      assert rs[0].Ok?;
      assert forall j :: 0 <= j < i - 1 ==> rs[1..][j] == rs[j + 1];
      FirstFailureWins(rs[1..], i - 1);
    }
  }

  lemma SplitAt<T>(s: seq<T>, k: nat)
    requires k <= |s|
    ensures s == s[..k] + s[k..]
  {
    assert forall i :: 0 <= i < |s| ==> s[i] == (s[..k] + s[k..])[i];
  }

  lemma TakeOneMore<T>(s: seq<T>, i: nat)
    requires i < |s|
    ensures s[..i + 1] == s[..i] + [s[i]]
  {
    assert forall j :: 0 <= j <= i ==> s[..i + 1][j] == (s[..i] + [s[i]])[j];
  }

  lemma CollectSingle<T>(r: Result<T, string>)
    ensures Collect([r]) == if r.Ok? then Ok([r.value]) else Err(r.error)
  {
    assert [r][1..] == [];
    if r.Ok? {
      assert [r.value] + [] == [r.value];
    }
  }

  /** Collecting a concatenation collects the first part, then the second. */
  lemma {:induction false} CollectConcat<T>(a: seq<Result<T, string>>, b: seq<Result<T, string>>)
    ensures Collect(a + b) ==
      match Collect(a)
      case Err(err) => Err(err)
      case Ok(x) =>
        match Collect(b)
        case Err(err) => Err(err)
        case Ok(y) => Ok(x + y)
  {
    if a == [] {
      assert a + b == b;
      if Collect(b).Ok? {
        assert [] + Collect(b).value == Collect(b).value;
      }
    } else {
      assert (a + b)[0] == a[0];
      assert (a + b)[1..] == a[1..] + b;
      CollectConcat(a[1..], b);
      if a[0].Ok? && Collect(a[1..]).Ok? && Collect(b).Ok? {
        var h, x, y := a[0].value, Collect(a[1..]).value, Collect(b).value;
        assert [h] + (x + y) == ([h] + x) + y;
      }
    }
  }

  // ---------------------------------------------------------------------------
  // Ordering: the stable `sort_by` on `number(name)`
  // ---------------------------------------------------------------------------

  function Key(a: Action): nat {
    LeadingDigitSum(a.name)
  }

  predicate SortedByKey(s: seq<Action>) {
    forall i, j :: 0 <= i < j < |s| ==> Key(s[i]) <= Key(s[j])
  }

  /** The actions of `s` whose key is `k`, in their order in `s`. */
  function WithKey(s: seq<Action>, k: nat): seq<Action> {
    if s == [] then [] else (if Key(s[0]) == k then [s[0]] else []) + WithKey(s[1..], k)
  }

  /** `a` placed in front of the first action whose key is not smaller. */
  function Insert(a: Action, s: seq<Action>): seq<Action> {
    if s == [] || Key(a) <= Key(s[0]) then [a] + s else [s[0]] + Insert(a, s[1..])
  }

  /** The stable sort by key (an insertion sort). */
  function SortByKey(s: seq<Action>): (r: seq<Action>)
    ensures SortedByKey(r)
  {
    if s == [] then []
    else
      var t := SortByKey(s[1..]);
      InsertKeepsOrder(s[0], t);
      Insert(s[0], t)
  }

  lemma {:induction false} InsertKeepsElements(a: Action, s: seq<Action>)
    ensures multiset(Insert(a, s)) == multiset(s) + multiset{a}
    ensures |Insert(a, s)| == |s| + 1
  {
    if s != [] && Key(a) > Key(s[0]) {
      InsertKeepsElements(a, s[1..]);
      assert s == [s[0]] + s[1..];
    }
  }

  /** Inserting an action no smaller than a bound into actions no smaller than
      it keeps every action no smaller than it. */
  lemma {:induction false} InsertKeepsLowerBound(a: Action, s: seq<Action>, b: nat)
    requires b <= Key(a)
    requires forall i :: 0 <= i < |s| ==> b <= Key(s[i])
    ensures forall i :: 0 <= i < |Insert(a, s)| ==> b <= Key(Insert(a, s)[i])
  {
    if s != [] && Key(a) > Key(s[0]) {
      InsertKeepsLowerBound(a, s[1..], b);
    }
  }

  lemma {:induction false} InsertKeepsOrder(a: Action, s: seq<Action>)
    requires SortedByKey(s)
    ensures SortedByKey(Insert(a, s))
  {
    if s != [] && Key(a) > Key(s[0]) {
      var t := Insert(a, s[1..]);
      InsertKeepsOrder(a, s[1..]);
      InsertKeepsLowerBound(a, s[1..], Key(s[0]));
      assert Insert(a, s) == [s[0]] + t;
    }
  }

  lemma WithKeyCons(a: Action, s: seq<Action>, k: nat)
    ensures WithKey([a] + s, k) == (if Key(a) == k then [a] else []) + WithKey(s, k)
  {
    assert ([a] + s)[1..] == s;
  }

  lemma {:induction false} InsertIsStable(a: Action, s: seq<Action>, k: nat)
    ensures WithKey(Insert(a, s), k) == (if Key(a) == k then [a] else []) + WithKey(s, k)
  {
    if s == [] || Key(a) <= Key(s[0]) {
      WithKeyCons(a, s, k);
    } else {
      var t := s[1..];
      InsertIsStable(a, t, k);
      WithKeyCons(s[0], Insert(a, t), k);
      WithKeyCons(s[0], t, k);
      assert s == [s[0]] + t;
    }
  }

  /** The sort orders by key, keeps every action, and keeps the listing order of
      actions with equal keys. */
  lemma {:induction false} SortByKeyCorrect(s: seq<Action>)
    ensures SortedByKey(SortByKey(s))
    ensures multiset(SortByKey(s)) == multiset(s)
    ensures |SortByKey(s)| == |s|
    ensures forall k :: WithKey(SortByKey(s), k) == WithKey(s, k)
  {
    if s != [] {
      SortByKeyCorrect(s[1..]);
      var t := SortByKey(s[1..]);
      InsertKeepsOrder(s[0], t);
      InsertKeepsElements(s[0], t);
      assert s == [s[0]] + s[1..];
      forall k ensures WithKey(SortByKey(s), k) == WithKey(s, k) {
        InsertIsStable(s[0], t, k);
      }
    }
  }

  // ---------------------------------------------------------------------------
  // `find_actions`
  // ---------------------------------------------------------------------------

  /** What `find_actions` yields for a root listing: the root's read error; or
      the first failure among the action directories in listing order; or the
      resolved actions, stably sorted by key. */
  function Discovered(root: Path, listing: Result<seq<Entry>, string>, cmd: string, special: Special)
    : (r: Result<seq<Action>, string>)
    ensures listing.Err? ==> r == Err(listing.error)
    ensures listing.Ok? ==> (r.Ok? <==> ResolveAll(root, ActionDirs(listing.value), cmd, special).Ok?)
    ensures listing.Ok? && r.Err? ==> r.error == ResolveAll(root, ActionDirs(listing.value), cmd, special).error
    ensures r.Ok? ==> SortedByKey(r.value)
  {
    match listing
    case Err(err) => Err(err)
    case Ok(entries) =>
      match ResolveAll(root, ActionDirs(entries), cmd, special)
      case Err(err) => Err(err)
      case Ok(actions) => Ok(SortByKey(actions))
  }

  /** The body of the `find_actions` loop for one action directory: select its
      scripts, compute its key and look up the override. */
  method ResolveDirectory(root: Path, e: Entry, cmd: string, special: Special) returns (r: Result<Action, string>)
    ensures r == Resolve(root, e, cmd, special)
  {
    var dir := root + [e.name];
    if e.listing.Err? {
      return Err(e.listing.error);
    }
    var names := e.listing.value;
    var doFile := SelectFile(dir, names, "do");
    var undoFile := SelectFile(dir, names, "undo");
    var n := Number(e.name);
    var key := NatToString(n);
    var command: string;
    if key !in special {
      command := cmd;
    } else if special[key].Some? {
      command := special[key].value;
    } else {
      return Err(SpecialInvalid);
    }
    r := Ok(Action(e.name, command, doFile, undoFile));
  }

  method FindActions(root: Path, listing: Result<seq<Entry>, string>, cmd: string, special: Special)
    returns (r: Result<seq<Action>, string>)
    ensures r == Discovered(root, listing, cmd, special)
  {
    if listing.Err? {
      return Err(listing.error);
    }
    var dirs := ActionDirs(listing.value);
    ghost var outcomes := Resolutions(root, dirs, cmd, special);
    var actions: seq<Action> := [];
    for i := 0 to |dirs|
      invariant Collect(outcomes[..i]) == Ok(actions)
    {
      var action := ResolveDirectory(root, dirs[i], cmd, special);
      assert action == outcomes[i];
      TakeOneMore(outcomes, i);
      CollectConcat(outcomes[..i], [action]);
      CollectSingle(action);
      if action.Err? {
        SplitAt(outcomes, i + 1);
        CollectConcat(outcomes[..i + 1], outcomes[i + 1..]);
        return Err(action.error);
      }
      actions := actions + [action.value];
    }
    assert outcomes[..|dirs|] == outcomes;
    r := Ok(SortByKey(actions));
  }

  /** Discovery succeeds exactly when the root and every action directory can be
      read and no action directory meets an invalid override. */
  lemma DiscoveredOkIff(root: Path, listing: Result<seq<Entry>, string>, cmd: string, special: Special)
    ensures Discovered(root, listing, cmd, special).Ok? <==>
      listing.Ok? &&
      forall e :: e in ActionDirs(listing.value) ==>
        e.listing.Ok? && ResolveCommand(e.name, cmd, special).Ok?
  {
    if listing.Ok? {
      var dirs := ActionDirs(listing.value);
      var outcomes := Resolutions(root, dirs, cmd, special);
      CollectOk(outcomes);
      if forall e :: e in dirs ==> e.listing.Ok? && ResolveCommand(e.name, cmd, special).Ok? {
        assert forall i :: 0 <= i < |dirs| ==> outcomes[i].Ok?;
      } else {
        var e :| e in dirs && !(e.listing.Ok? && ResolveCommand(e.name, cmd, special).Ok?);
        var i :| 0 <= i < |dirs| && dirs[i] == e;
        assert outcomes[i].Err?;
      }
    }
  }

  /** A successful discovery yields one action per action directory, named
      after it, sorted by key, with the actions of equal key in listing order. */
  lemma {:induction false} DiscoveredShape(root: Path, entries: seq<Entry>, cmd: string, special: Special)
    requires Discovered(root, Ok(entries), cmd, special).Ok?
    ensures var actions := Discovered(root, Ok(entries), cmd, special).value;
            var resolved := ResolveAll(root, ActionDirs(entries), cmd, special).value;
            && |actions| == |ActionDirs(entries)|
            && multiset(actions) == multiset(resolved)
            && |resolved| == |ActionDirs(entries)|
            && (forall i :: 0 <= i < |resolved| ==> resolved[i].name == ActionDirs(entries)[i].name)
            && SortedByKey(actions)
            && (forall k :: WithKey(actions, k) == WithKey(resolved, k))
  {
    CollectOk(Resolutions(root, ActionDirs(entries), cmd, special));
    SortByKeyCorrect(ResolveAll(root, ActionDirs(entries), cmd, special).value);
  }

  /** The override table is consulted under the decimal digit sum: an override
      stored under "3" applies to "3-third" and to "12-twelfth" alike, and the
      default command to "1-first". */
  lemma OverrideExamples()
    ensures ResolveCommand("3-third", "sh", map["3" := Some("special")]) == Ok("special")
    ensures ResolveCommand("12-twelfth", "sh", map["3" := Some("special")]) == Ok("special")
    ensures ResolveCommand("1-first", "sh", map["3" := Some("special")]) == Ok("sh")
    ensures ResolveCommand("3-third", "sh", map["3" := None]) == Err(SpecialInvalid)
  {
    assert LeadingDigitSum("3-third") == 3 by { assert "3-third"[1..] == "-third"; }
    assert LeadingDigitSum("12-twelfth") == 3 by {
      assert "12-twelfth"[1..] == "2-twelfth";
      assert "2-twelfth"[1..] == "-twelfth";
    }
    assert LeadingDigitSum("1-first") == 1 by { assert "1-first"[1..] == "-first"; }
  }

  // ---------------------------------------------------------------------------
  // Running a script: `parse_command`, `execute_command`, `do_command`, `undo_command`
  // ---------------------------------------------------------------------------

  /** The argument vector of a script run: the command's whitespace-separated
      words followed by the script's file name. */
  function CommandLine(cmd: string, path: Path): seq<string> {
    Words(cmd) + [FileName(path)]
  }

  /** `parse_command`: collect the words, then push the file name. */
  method ParseCommand(cmd: string, path: Path) returns (words: seq<string>)
    ensures |words| == |Words(cmd)| + 1
    ensures forall i :: 0 <= i < |words| - 1 ==> IsWord(words[i]) && words[i] == Words(cmd)[i]
    ensures words[|words| - 1] == FileName(path)
    ensures words == CommandLine(cmd, path)
  {
    WordsAreWords(cmd);
    words := Words(cmd);
    words := words + [FileName(path)];
  }

  /** `execute_command`: an absent script is a success carrying `message`, and
      nothing is spawned; otherwise the first word is the program, the rest are
      its arguments, and it runs in the script's directory. */
  function ExecuteCommand(file: Option<Path>, cmd: string, message: string, spawn: Spawn): (r: Result<string, string>)
    ensures file.None? ==> r == Ok(message)
    ensures r.Err? ==> file.Some?
  {
    match file
    case None => Ok(message)
    case Some(p) =>
      var argv := CommandLine(cmd, p);
      spawn(Invocation(argv[0], argv[1..], DirPath(p)))
  }

  /** `do_command`: the do script run through the action's command. */
  function DoCommand(a: Action, spawn: Spawn): (r: Result<string, string>)
    ensures a.doFile.None? ==> r == Ok(NoDoFile)
    ensures a.doFile.Some? ==> r == spawn(Invocation(CommandLine(a.command, a.doFile.value)[0],
                                                     CommandLine(a.command, a.doFile.value)[1..],
                                                     DirPath(a.doFile.value)))
  {
    ExecuteCommand(a.doFile, a.command, NoDoFile, spawn)
  }

  /** `undo_command`: the undo script run through the action's command. */
  function UndoCommand(a: Action, spawn: Spawn): (r: Result<string, string>)
    ensures a.undoFile.None? ==> r == Ok(NoUndoFile)
    ensures a.undoFile.Some? ==> r == spawn(Invocation(CommandLine(a.command, a.undoFile.value)[0],
                                                       CommandLine(a.command, a.undoFile.value)[1..],
                                                       DirPath(a.undoFile.value)))
  {
    ExecuteCommand(a.undoFile, a.command, NoUndoFile, spawn)
  }

  /** A script invocation: the command's words, then the script's file name as
      the last argument (the program itself when the command has no words),
      run in the script's own directory. */
  lemma ScriptInvocation(cmd: string, p: Path)
    ensures var argv := CommandLine(cmd, p);
            && |argv| == |Words(cmd)| + 1
            && (argv[0] == if Words(cmd) == [] then FileName(p) else Words(cmd)[0])
            && (Words(cmd) != [] ==> argv[1..] == Words(cmd)[1..] + [FileName(p)])
  {
  }

  /** With its script absent, an action succeeds with the fixed message whatever
      the process collaborator would do. */
  lemma AbsentScriptSpawnsNothing(a: Action, spawn1: Spawn, spawn2: Spawn)
    ensures a.doFile.None? ==> DoCommand(a, spawn1) == DoCommand(a, spawn2) == Ok(NoDoFile)
    ensures a.undoFile.None? ==> UndoCommand(a, spawn1) == UndoCommand(a, spawn2) == Ok(NoUndoFile)
  {
  }
}
