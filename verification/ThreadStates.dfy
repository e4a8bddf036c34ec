/** internal/handlers/mysql/processlist.go: counting threads by their general state. */
module ThreadStates {
  import opened Collections

  // The keys of generalThreadStates, in groups, and apart from "execution of init_command".
  const STATES_1: set<string> := {
    "after create", "altering table", "analyzing", "checking permissions", "checking table",
    "cleaning up", "closing tables"
  }

  const STATES_2: set<string> := {
    "converting heap to myisam", "copying to tmp table", "creating sort index",
    "creating table", "creating tmp table", "deleting", "end"
  }

  const STATES_3: set<string> := {
    "executing", "flushing tables", "freeing items", "fulltext initialization", "idle", "init",
    "killed"
  }

  const STATES_4: set<string> := {
    "logging slow query", "login", "manage keys", "opening tables", "optimizing", "other",
    "preparing"
  }

  const STATES_5: set<string> := {
    "reading from net", "removing duplicates", "removing tmp table", "reopen tables",
    "repair by sorting", "repair done", "repair with keycache"
  }

  const STATES_6: set<string> := {
    "replication master", "rolling back", "searching rows for update", "sending data",
    "sorting for group", "sorting for order", "sorting index"
  }

  const STATES_7: set<string> := {
    "sorting result", "statistics", "updating", "waiting for lock", "waiting for table flush",
    "waiting for tables", "waiting on cond"
  }

  const STATES_8: set<string> := {
    "writing to net"
  }

  const INIT_COMMAND := "execution of init_command"

  const GENERAL_THREAD_STATES: set<string> :=
    STATES_1 + STATES_2 + STATES_3 + STATES_4 + STATES_5 + STATES_6 + STATES_7 + STATES_8 + {INIT_COMMAND}

  const STATE_STATUS_MAPPINGS: map<string, string> := map[
    "user sleep" := "idle",
    "creating index" := "altering table",
    "committing alter table to storage engine" := "altering table",
    "discard or import tablespace" := "altering table",
    "rename" := "altering table",
    "setup" := "altering table",
    "renaming result table" := "altering table",
    "preparing for alter table" := "altering table",
    "copying to group table" := "copying to tmp table",
    "copy to tmp table" := "copying to tmp table",
    "query end" := "end",
    "update" := "updating",
    "updating main table" := "updating",
    "updating reference tables" := "updating",
    "system lock" := "waiting for lock",
    "user lock" := "waiting for lock",
    "table lock" := "waiting for lock",
    "deleting from main table" := "deleting",
    "deleting from reference tables" := "deleting"
  ]

  /** `lower` is the rune table behind strings.ToLower: all that matters is what it does in ASCII. */
  ghost predicate LowerTable(lower: char -> char) {
    forall c: char :: c as int < 128 ==> lower(c) == if 'A' <= c <= 'Z' then (c as int + 32) as char else c
  }

  function Normalize(lower: char -> char, s: string): (r: string)
    ensures |r| == |s| && '_' !in r
  {
    seq(|s|, i requires 0 <= i < |s| => if lower(s[i]) == '_' then ' ' else lower(s[i]))
  }

  function FindThreadState(lower: char -> char, rawCommand: string, rawState: string): string {
    var command := Normalize(lower, rawCommand);
    var state := Normalize(lower, rawState);
    if state in GENERAL_THREAD_STATES then state
    else if state in STATE_STATUS_MAPPINGS then STATE_STATUS_MAPPINGS[state]
    else if Contains(state, "waiting for") && Contains(state, "lock") then "waiting for lock"
    else if command == "sleep" && state == "" then "idle"
    else if command == "query" then "executing"
    else if command == "binlog dump" then "replication master"
    else "other"
  }

  /** Lower-case ASCII words. */
  predicate Plain(s: string) { forall i :: 0 <= i < |s| ==> 'a' <= s[i] <= 'z' || s[i] == ' ' }

  /** The answer when the state is not itself a general one. */
  predicate Fallback(s: string) {
    || s in {"idle", "altering table", "copying to tmp table", "end", "updating"}
    || s in {"waiting for lock", "deleting", "executing", "replication master", "other"}
  }

  lemma MappedStates(state: string)
    requires state in STATE_STATUS_MAPPINGS
    ensures Fallback(STATE_STATUS_MAPPINGS[state])
  {
  }

  lemma FallbackGeneral(s: string)
    requires Fallback(s)
    ensures s in GENERAL_THREAD_STATES
  {
  }

  lemma Plain1(s: string)
    requires s in STATES_1
    ensures Plain(s)
  {
  }

  lemma Plain2(s: string)
    requires s in STATES_2
    ensures Plain(s)
  {
  }

  lemma Plain3(s: string)
    requires s in STATES_3
    ensures Plain(s)
  {
  }

  lemma Plain4(s: string)
    requires s in STATES_4
    ensures Plain(s)
  {
  }

  lemma Plain5(s: string)
    requires s in STATES_5
    ensures Plain(s)
  {
  }

  lemma Plain6(s: string)
    requires s in STATES_6
    ensures Plain(s)
  {
  }

  lemma Plain7(s: string)
    requires s in STATES_7
    ensures Plain(s)
  {
  }

  lemma Plain8(s: string)
    requires s in STATES_8
    ensures Plain(s)
  {
  }

  lemma InitCommandNotPlain()
    ensures '_' in INIT_COMMAND
  {
    assert INIT_COMMAND[17] == '_';
  }

  lemma GeneralPlain(s: string)
    requires s in GENERAL_THREAD_STATES && s != INIT_COMMAND
    ensures Plain(s)
  {
    if
    case s in STATES_1 => Plain1(s);
    case s in STATES_2 => Plain2(s);
    case s in STATES_3 => Plain3(s);
    case s in STATES_4 => Plain4(s);
    case s in STATES_5 => Plain5(s);
    case s in STATES_6 => Plain6(s);
    case s in STATES_7 => Plain7(s);
    case s in STATES_8 => Plain8(s);
  }

  /** Normalizing leaves an answer as it is. */
  lemma AnswerNormal(lower: char -> char, rawCommand: string, rawState: string)
    requires LowerTable(lower)
    ensures var found := FindThreadState(lower, rawCommand, rawState);
            && found in GENERAL_THREAD_STATES && found != INIT_COMMAND && Normalize(lower, found) == found
  {
    var found := FindThreadState(lower, rawCommand, rawState);
    var state := Normalize(lower, rawState);
    InitCommandNotPlain();
    if state !in GENERAL_THREAD_STATES {
      if state in STATE_STATUS_MAPPINGS {
        MappedStates(state);
      }
      FallbackGeneral(found);
    }
    GeneralPlain(found);
  }

  /** The answer is always a key of generalThreadStates but never "execution of
      init_command"; and fed back as the state, with any command, it gives itself. */
  lemma FoundStateStable(lower: char -> char, rawCommand: string, rawState: string)
    requires LowerTable(lower)
    ensures var found := FindThreadState(lower, rawCommand, rawState);
            && found in GENERAL_THREAD_STATES && found != INIT_COMMAND
            && forall command :: FindThreadState(lower, command, found) == found
  {
    AnswerNormal(lower, rawCommand, rawState);
  }

  // ---- what each rule answers, in terms of the raw texts ----------------------------

  /** The text is the word, up to case and with underscores for spaces. */
  ghost predicate Reads(lower: char -> char, raw: string, word: string) {
    |raw| == |word| && forall i :: 0 <= i < |raw| ==> word[i] == if lower(raw[i]) == '_' then ' ' else lower(raw[i])
  }

  ghost predicate ReadsAt(lower: char -> char, raw: string, word: string, i: nat) {
    i + |word| <= |raw| && Reads(lower, raw[i..i + |word|], word)
  }

  /** The word stands somewhere in the text. */
  ghost predicate Mentions(lower: char -> char, raw: string, word: string) {
    exists i: nat :: ReadsAt(lower, raw, word, i)
  }

  ghost predicate ReadsOneOf(lower: char -> char, raw: string, words: set<string>) {
    exists word :: word in words && Reads(lower, raw, word)
  }

  /** A general state is itself; a mapped one goes where the table says; a wait for a lock
      is one; else the command decides. */
  ghost predicate Answers(lower: char -> char, command: string, state: string, answer: string) {
    if ReadsOneOf(lower, state, GENERAL_THREAD_STATES) then Reads(lower, state, answer)
    else if ReadsOneOf(lower, state, STATE_STATUS_MAPPINGS.Keys) then
      exists word :: word in STATE_STATUS_MAPPINGS && Reads(lower, state, word) && answer == STATE_STATUS_MAPPINGS[word]
    else if Mentions(lower, state, "waiting for") && Mentions(lower, state, "lock") then answer == "waiting for lock"
    else if Reads(lower, command, "sleep") && state == "" then answer == "idle"
    else if Reads(lower, command, "query") then answer == "executing"
    else if Reads(lower, command, "binlog dump") then answer == "replication master"
    else answer == "other"
  }

  lemma ReadsMeaning(lower: char -> char, raw: string, word: string)
    ensures Reads(lower, raw, word) <==> Normalize(lower, raw) == word
  {
  }

  lemma MentionsMeaning(lower: char -> char, raw: string, word: string)
    ensures Mentions(lower, raw, word) <==> Contains(Normalize(lower, raw), word)
  {
    var s := Normalize(lower, raw);
    ContainsMeaning(s, word);
    forall i: nat
      ensures ReadsAt(lower, raw, word, i) <==> OccursAt(s, word, i)
    {
      if i + |word| <= |raw| {
        ReadsMeaning(lower, raw[i..i + |word|], word);
        assert Normalize(lower, raw[i..i + |word|]) == s[i..i + |word|];
      }
    }
    if i: nat :| OccursAt(s, word, i) {
      assert ReadsAt(lower, raw, word, i);
    }
    if i: nat :| ReadsAt(lower, raw, word, i) {
      assert OccursAt(s, word, i);
    }
  }

  lemma ReadsOneOfMeaning(lower: char -> char, raw: string, words: set<string>)
    ensures ReadsOneOf(lower, raw, words) <==> Normalize(lower, raw) in words
  {
    ReadsMeaning(lower, raw, Normalize(lower, raw));
    if word :| word in words && Reads(lower, raw, word) {
      ReadsMeaning(lower, raw, word);
    }
  }

  lemma FoundAnswers(lower: char -> char, command: string, state: string)
    ensures Answers(lower, command, state, FindThreadState(lower, command, state))
  {
    var normal := Normalize(lower, state);
    ReadsOneOfMeaning(lower, state, GENERAL_THREAD_STATES);
    ReadsOneOfMeaning(lower, state, STATE_STATUS_MAPPINGS.Keys);
    ReadsMeaning(lower, state, normal);
    MentionsMeaning(lower, state, "waiting for");
    MentionsMeaning(lower, state, "lock");
    ReadsMeaning(lower, command, "sleep");
    ReadsMeaning(lower, command, "query");
    ReadsMeaning(lower, command, "binlog dump");
  }

  /** The rules leave one answer only. */
  lemma OneAnswer(lower: char -> char, command: string, state: string, a: string, b: string)
    requires Answers(lower, command, state, a) && Answers(lower, command, state, b)
    ensures a == b
  {
    ReadsMeaning(lower, state, a);
    ReadsMeaning(lower, state, b);
    forall word
      ensures Reads(lower, state, word) <==> Normalize(lower, state) == word
    {
      ReadsMeaning(lower, state, word);
    }
  }

  // ---- counting -----------------------------------------------------------------

  const TWO_32: nat := 0x1_0000_0000

  datatype Row = Row(command: string, state: string, count: nat)

  /** A classification of threads by command and state. */
  type Finder = (string, string) -> string

  /** What the rows say about one state. */
  function RowTotal(find: Finder, rows: seq<Row>, state: string): nat {
    if rows == [] then 0
    else
      var last := rows[|rows| - 1];
      RowTotal(find, rows[..|rows| - 1], state) + if find(last.command, last.state) == state then last.count else 0
  }

  function AllRows(rows: seq<Row>): nat {
    if rows == [] then 0 else AllRows(rows[..|rows| - 1]) + rows[|rows| - 1].count
  }

  /** The rows that were scanned. */
  function Scanned(rows: seq<Option<Row>>): seq<Row> {
    if rows == [] then []
    else
      var last := rows[|rows| - 1];
      Scanned(rows[..|rows| - 1]) + if last.Some? then [last.value] else []
  }

  ghost predicate Counted(find: Finder, states: set<string>, rows: seq<Row>, counts: map<string, nat>) {
    && counts.Keys == states
    && forall state :: state in states ==> counts[state] == RowTotal(find, rows, state) % TWO_32
  }

  function AddRow(find: Finder, counts: map<string, nat>, row: Row): map<string, nat>
    requires find(row.command, row.state) in counts
  {
    var found := find(row.command, row.state);
    counts[found := (counts[found] + row.count) % TWO_32]
  }

  lemma RowTotalNext(find: Finder, rows: seq<Row>, row: Row, state: string)
    ensures RowTotal(find, rows + [row], state) == RowTotal(find, rows, state) + if find(row.command, row.state) == state then row.count else 0
  {
    assert (rows + [row])[..|rows|] == rows;
  }

  lemma AddWrapped(a: nat, b: nat)
    ensures (a % TWO_32 + b) % TWO_32 == (a + b) % TWO_32
  {
  }

  lemma CountedRow(find: Finder, states: set<string>, rows: seq<Row>, row: Row, counts: map<string, nat>)
    requires Counted(find, states, rows, counts) && find(row.command, row.state) in states
    ensures Counted(find, states, rows + [row], AddRow(find, counts, row))
  {
    forall state | state in states
      ensures AddRow(find, counts, row)[state] == RowTotal(find, rows + [row], state) % TWO_32
    {
      RowTotalNext(find, rows, row, state);
      AddWrapped(RowTotal(find, rows, state), row.count);
    }
  }

  lemma ScannedSnoc(rows: seq<Option<Row>>, row: Row)
    ensures Scanned(rows + [Some(row)]) == Scanned(rows) + [row]
  {
    assert (rows + [Some(row)])[..|rows|] == rows;
  }

  /** Without unreadable rows those are all rows, in order. */
  lemma {:induction false} ScannedAll(rows: seq<Option<Row>>)
    requires None !in rows
    ensures |Scanned(rows)| == |rows| && forall i :: 0 <= i < |rows| ==> rows[i] == Some(Scanned(rows)[i])
  {
    if rows != [] {
      ScannedAll(rows[..|rows| - 1]);
    }
  }

  lemma CountedNext(find: Finder, states: set<string>, rows: seq<Option<Row>>, i: nat, counts: map<string, nat>)
    requires i < |rows| && rows[i].Some? && find(rows[i].value.command, rows[i].value.state) in states
    requires Counted(find, states, Scanned(rows[..i]), counts)
    ensures Counted(find, states, Scanned(rows[..i + 1]), AddRow(find, counts, rows[i].value))
  {
    assert rows[..i + 1] == rows[..i] + [Some(rows[i].value)];
    ScannedSnoc(rows[..i], rows[i].value);
    CountedRow(find, states, Scanned(rows[..i]), rows[i].value, counts);
  }

  /** The counting loop of gatherProcesslistByState. A row that cannot be scanned (None)
      ends it without a result. The counts are uint32. */
  method CountStates(find: Finder, states: set<string>, rows: seq<Option<Row>>) returns (r: Result<map<string, nat>>)
    requires forall command, state :: find(command, state) in states
    ensures r.Failure? <==> None in rows
    ensures r.Success? ==>
              && |Scanned(rows)| == |rows| && (forall i :: 0 <= i < |rows| ==> rows[i] == Some(Scanned(rows)[i]))
              && Counted(find, states, Scanned(rows), r.value)
  {
    var counts: map<string, nat> := map state | state in states :: 0;
    for i := 0 to |rows|
      invariant None !in rows[..i]
      invariant Counted(find, states, Scanned(rows[..i]), counts)
    {
      if rows[i].None? {
        return Failure;
      }
      CountedNext(find, states, rows, i, counts);
      counts := AddRow(find, counts, rows[i].value);
    }
    assert rows[..|rows|] == rows;
    ScannedAll(rows);
    return Success(counts);
  }

  /** A classification that answers by the rules. */
  ghost predicate ByTheRules(lower: char -> char, find: Finder) {
    forall command, state :: Answers(lower, command, state, find(command, state))
  }

  lemma {:induction false} SameTotals(f: Finder, g: Finder, rows: seq<Row>, state: string)
    requires forall command, raw :: f(command, raw) == g(command, raw)
    ensures RowTotal(f, rows, state) == RowTotal(g, rows, state)
  {
    if rows != [] {
      SameTotals(f, g, rows[..|rows| - 1], state);
    }
  }

  lemma CountedByTheRules(lower: char -> char, find: Finder, found: Finder, states: set<string>, rows: seq<Row>, counts: map<string, nat>)
    requires ByTheRules(lower, find) && ByTheRules(lower, found) && Counted(found, states, rows, counts)
    ensures Counted(find, states, rows, counts)
  {
    forall command, raw
      ensures find(command, raw) == found(command, raw)
    {
      OneAnswer(lower, command, raw, find(command, raw), found(command, raw));
    }
    forall state | state in states
      ensures counts[state] == RowTotal(find, rows, state) % TWO_32
    {
      SameTotals(find, found, rows, state);
    }
  }

  /** Whatever the rows, the published states are exactly the general ones. */
  method GatherProcesslistByState(lower: char -> char, rows: seq<Option<Row>>) returns (r: Result<map<string, nat>>)
    requires LowerTable(lower)
    ensures r.Failure? <==> None in rows
    ensures r.Success? ==> forall find :: ByTheRules(lower, find) ==> Counted(find, GENERAL_THREAD_STATES, Scanned(rows), r.value)
    ensures r.Success? ==> Counted((c, s) => FindThreadState(lower, c, s), GENERAL_THREAD_STATES, Scanned(rows), r.value)
  {
    forall command, state
      ensures FindThreadState(lower, command, state) in GENERAL_THREAD_STATES
    {
      FoundStateStable(lower, command, state);
    }
    var found: Finder := (c, s) => FindThreadState(lower, c, s);
    r := CountStates(found, GENERAL_THREAD_STATES, rows);
    forall command, state
      ensures Answers(lower, command, state, found(command, state))
    {
      FoundAnswers(lower, command, state);
    }
    if r.Success? {
      forall find | ByTheRules(lower, find)
        ensures Counted(find, GENERAL_THREAD_STATES, Scanned(rows), r.value)
      {
        CountedByTheRules(lower, find, found, GENERAL_THREAD_STATES, Scanned(rows), r.value);
      }
    }
  }

  /** The sum of a count over a set of states. */
  ghost function SumOver(states: set<string>, count: string -> nat): nat {
    if states == {} then 0
    else
      var state :| state in states;
      count(state) + SumOver(states - {state}, count)
  }

  lemma {:induction false} SumOverRemove(states: set<string>, count: string -> nat, state: string)
    requires state in states
    ensures SumOver(states, count) == count(state) + SumOver(states - {state}, count)
  {
    var first :| first in states && SumOver(states, count) == count(first) + SumOver(states - {first}, count);
    if first != state {
      SumOverRemove(states - {first}, count, state);
      SumOverRemove(states - {state}, count, first);
      assert states - {first} - {state} == states - {state} - {first};
    }
  }

  lemma {:induction false} SumOverAdd(states: set<string>, before: string -> nat, after: string -> nat, extra: string -> nat)
    requires forall state :: state in states ==> after(state) == before(state) + extra(state)
    ensures SumOver(states, after) == SumOver(states, before) + SumOver(states, extra)
  {
    if states != {} {
      var state :| state in states;
      SumOverRemove(states, before, state);
      SumOverRemove(states, after, state);
      SumOverRemove(states, extra, state);
      SumOverAdd(states - {state}, before, after, extra);
    }
  }

  lemma {:induction false} SumOverZero(states: set<string>, count: string -> nat)
    requires forall state :: state in states ==> count(state) == 0
    ensures SumOver(states, count) == 0
  {
    if states != {} {
      var state :| state in states;
      SumOverRemove(states, count, state);
      SumOverZero(states - {state}, count);
    }
  }

  /** Every row is counted under exactly one state. */
  lemma {:induction false} TotalsAddUp(find: Finder, states: set<string>, rows: seq<Row>)
    requires forall command, state :: find(command, state) in states
    ensures SumOver(states, state => RowTotal(find, rows, state)) == AllRows(rows)
  {
    var totals := (state: string) => RowTotal(find, rows, state);
    if rows == [] {
      SumOverZero(states, totals);
    } else {
      var before, last := rows[..|rows| - 1], rows[|rows| - 1];
      var found := find(last.command, last.state);
      var extra := (state: string) => if found == state then last.count else 0;
      TotalsAddUp(find, states, before);
      SumOverAdd(states, state => RowTotal(find, before, state), totals, extra);
      SumOverRemove(states, extra, found);
      SumOverZero(states - {found}, extra);
    }
  }

  function CountOf(counts: map<string, nat>, state: string): nat {
    if state in counts then counts[state] else 0
  }

  /** Unless a count overflows, the published counts add up to the rows. */
  lemma CountsAddUp(find: Finder, states: set<string>, rows: seq<Row>, counts: map<string, nat>)
    requires forall command, state :: find(command, state) in states
    requires Counted(find, states, rows, counts)
    requires forall state :: state in states ==> RowTotal(find, rows, state) < TWO_32
    ensures SumOver(states, state => CountOf(counts, state)) == AllRows(rows)
  {
    TotalsAddUp(find, states, rows);
    SumOverAdd(states, state => RowTotal(find, rows, state), state => CountOf(counts, state), state => 0);
    SumOverZero(states, state => 0);
  }
}
