/** Replaying CSV samples in the importer: column index, line reader and the sample-and-hold loop
    (dse/importer/csv.c:33-90, dse/importer/importer.c:102-128). */
module CsvReplay {
  import opened Wrappers

  /** Number conversions of the C library: `strtod` gives nothing when it sets errno. */
  datatype Conversions = Conversions(strtod: string -> Option<real>, atoi: string -> int)

  predicate Delimiter(c: char) {
    c == ',' || c == ';' || c == '\n'
  }

  // ----- strtok -----

  function SkipDelimiters(s: string): (r: string)
    ensures |r| <= |s| && (r != [] ==> !Delimiter(r[0]))
  {
    if s == [] || !Delimiter(s[0]) then s else SkipDelimiters(s[1..])
  }

  function TokenLength(s: string): (n: nat)
    ensures n <= |s|
  {
    if s == [] || Delimiter(s[0]) then 0 else 1 + TokenLength(s[1..])
  }

  /** One strtok_r call: the token and what is saved for the next call. */
  function NextToken(s: string): (r: Option<(string, string)>)
    ensures r.Some? ==> |r.value.1| < |s|
  {
    var u := SkipDelimiters(s);
    if u == [] then None
    else
      var n := TokenLength(u);
      Some((u[..n], if n < |u| then u[n + 1..] else []))
  }

  function Tokens(s: string): seq<string>
    decreases |s|
  {
    match NextToken(s)
    case None => []
    case Some((token, rest)) => [token] + Tokens(rest)
  }

  /** The tokens behind the first, which the sample loop discards as the timestamp. */
  function Values(line: string): seq<string> {
    match NextToken(line)
    case None => []
    case Some((_, rest)) => Tokens(rest)
  }

  ghost predicate Field(f: string) {
    forall c :: c in f ==> !Delimiter(c)
  }

  /** A line of comma separated fields. */
  function Join(fields: seq<string>): string {
    if fields == [] then "\n" else fields[0] + (if |fields| == 1 then "\n" else "," + Join(fields[1..]))
  }

  function NonEmpty(fields: seq<string>): (r: seq<string>)
    ensures |r| <= |fields|
  {
    if fields == [] then [] else (if fields[0] == [] then [] else [fields[0]]) + NonEmpty(fields[1..])
  }

  lemma {:induction false} TokenLengthOfField(f: string, rest: string)
    requires Field(f) && (rest == [] || Delimiter(rest[0]))
    ensures TokenLength(f + rest) == |f|
  {
    if f == [] {
      assert f + rest == rest;
    } else {
      assert f[0] in f && (f + rest)[1..] == f[1..] + rest;
      TokenLengthOfField(f[1..], rest);
    }
  }

  lemma {:induction false} TokensOfField(f: string, delimiter: char, rest: string)
    requires Field(f) && Delimiter(delimiter)
    ensures Tokens(f + [delimiter] + rest) == (if f == [] then [] else [f]) + Tokens(rest)
  {
    var s := f + [delimiter] + rest;
    if f == [] {
      assert s[1..] == rest;
      assert SkipDelimiters(s) == SkipDelimiters(rest);
      assert NextToken(s) == NextToken(rest);
    } else {
      assert f[0] in f && s[0] == f[0];
      assert s == f + ([delimiter] + rest);
      TokenLengthOfField(f, [delimiter] + rest);
      assert s[..|f|] == f && s[|f| + 1..] == rest;
    }
  }

  lemma {:induction false} NonEmptyKeepsAll(fields: seq<string>)
    ensures NonEmpty(fields) == fields <==> forall f :: f in fields ==> f != []
  {
    if fields != [] {
      NonEmptyKeepsAll(fields[1..]);
      assert fields == [fields[0]] + fields[1..];
      if fields[0] == [] {
        assert fields[0] in fields && |NonEmpty(fields)| < |fields|;
      } else {
        assert NonEmpty(fields) == [fields[0]] + NonEmpty(fields[1..]);
        assert NonEmpty(fields)[1..] == NonEmpty(fields[1..]);
        assert forall f :: f in fields <==> f == fields[0] || f in fields[1..];
      }
    }
  }

  /** strtok skips empty fields, so what is read back are the non-empty ones: column k lands on signal k
      exactly when no field is empty. */
  lemma {:induction false} TokensOfLine(fields: seq<string>)
    requires forall f :: f in fields ==> Field(f)
    ensures Tokens(Join(fields)) == NonEmpty(fields)
    ensures Tokens(Join(fields)) == fields <==> forall f :: f in fields ==> f != []
  {
    TokensAreNonEmpty(fields);
    NonEmptyKeepsAll(fields);
  }

  /** A line without a value for its second column: the value of the third is read as the second. */
  lemma {:induction false} EmptyFieldShifts()
    ensures Tokens(Join(["1", "", "3"])) == ["1", "3"]
  {
    var fields := ["1", "", "3"];
    TokensOfLine(fields);
    assert fields[1..] == ["", "3"] && ["", "3"][1..] == ["3"] && ["3"][1..] == [];
    assert NonEmpty(["3"]) == ["3"];
    assert NonEmpty(["", "3"]) == ["3"];
  }

  lemma {:induction false} TokensAreNonEmpty(fields: seq<string>)
    requires forall f :: f in fields ==> Field(f)
    ensures Tokens(Join(fields)) == NonEmpty(fields)
  {
    if fields == [] {
      assert Join(fields) == [] + ['\n'] + [];
      TokensOfField([], '\n', []);
    } else if |fields| == 1 {
      assert Join(fields) == fields[0] + ['\n'] + [];
      TokensOfField(fields[0], '\n', []);
      assert fields[1..] == [];
    } else {
      TokensAreNonEmpty(fields[1..]);
      assert Join(fields) == fields[0] + [','] + Join(fields[1..]);
      TokensOfField(fields[0], ',', Join(fields[1..]));
    }
  }

  // ----- what a line and a list of lines do -----

  /** The time of a usable line: not empty, convertible and not negative. */
  function TimeOf(c: Conversions, line: string): Option<real> {
    if line == [] then None
    else
      match c.strtod(line)
      case None => None
      case Some(t) => if t >= 0.0 then Some(t) else None
  }

  /** The usable lines, in file order. */
  function Usable(c: Conversions, lines: seq<string>): seq<string> {
    if lines == [] then []
    else (if TimeOf(c, lines[0]).Some? then [lines[0]] else []) + Usable(c, lines[1..])
  }

  /** Column `k` of a line, decoded into the signal it is indexed to. */
  function ApplyToken(c: Conversions, index: seq<nat>, signals: seq<real>, token: string, k: nat): (r: seq<real>)
    ensures |r| == |signals|
  {
    match c.strtod(token)
    case None => signals
    case Some(v) => if k < |index| && index[k] < |signals| then signals[index[k] := v] else signals
  }

  /** The tokens from column `k` on; columns beyond the index are not looked at. */
  function ApplyTokens(c: Conversions, index: seq<nat>, signals: seq<real>, tokens: seq<string>, k: nat): (r: seq<real>)
    ensures |r| == |signals|
    decreases |tokens|
  {
    if tokens == [] then signals
    else
      var s := ApplyToken(c, index, signals, tokens[0], k);
      if k + 1 >= |index| then s else ApplyTokens(c, index, s, tokens[1..], k + 1)
  }

  function ApplyLine(c: Conversions, index: seq<nat>, signals: seq<real>, line: string): seq<real> {
    ApplyTokens(c, index, signals, Values(line), 0)
  }

  ghost function ApplyLines(c: Conversions, index: seq<nat>, signals: seq<real>, lines: seq<string>): seq<real>
    decreases |lines|
  {
    if lines == [] then signals
    else ApplyLines(c, index, ApplyLine(c, index, signals, lines[0]), lines[1..])
  }

  /** How many of the pending lines are due at `t`: the longest prefix with times up to `t`. */
  ghost function Due(c: Conversions, lines: seq<string>, t: real): (n: nat)
    ensures n <= |lines|
  {
    if lines != [] && TimeOf(c, lines[0]).Some? && TimeOf(c, lines[0]).value <= t then 1 + Due(c, lines[1..], t) else 0
  }

  lemma {:induction false} DueIsLongest(c: Conversions, lines: seq<string>, t: real)
    requires forall l :: l in lines ==> TimeOf(c, l).Some?
    ensures var n := Due(c, lines, t);
            && (forall k :: 0 <= k < n ==> TimeOf(c, lines[k]).value <= t)
            && (n < |lines| ==> TimeOf(c, lines[n]).value > t)
  {
    if lines != [] {
      assert lines[0] in lines;
      DueIsLongest(c, lines[1..], t);
    }
  }

  // ----- sample and hold -----

  /** The last value that the tokens give to signal `i`. */
  ghost function LastOfTokens(c: Conversions, index: seq<nat>, before: real, tokens: seq<string>, k: nat, i: nat): real
    decreases |tokens|
  {
    if tokens == [] then before
    else
      var v := c.strtod(tokens[0]);
      var held := if k < |index| && index[k] == i && v.Some? then v.value else before;
      if k + 1 >= |index| then held else LastOfTokens(c, index, held, tokens[1..], k + 1, i)
  }

  ghost function LastOfLines(c: Conversions, index: seq<nat>, before: real, lines: seq<string>, i: nat): real
    decreases |lines|
  {
    if lines == [] then before
    else LastOfLines(c, index, LastOfTokens(c, index, before, Values(lines[0]), 0, i), lines[1..], i)
  }

  lemma {:induction false} TokensHold(c: Conversions, index: seq<nat>, signals: seq<real>, tokens: seq<string>, k: nat,
      i: nat)
    requires i < |signals|
    ensures ApplyTokens(c, index, signals, tokens, k)[i] == LastOfTokens(c, index, signals[i], tokens, k, i)
    decreases |tokens|
  {
    if tokens != [] && k + 1 < |index| {
      TokensHold(c, index, ApplyToken(c, index, signals, tokens[0], k), tokens[1..], k + 1, i);
    }
  }

  /** Each signal holds the last decodable value that the lines have for it, or its value before. */
  lemma {:induction false} LinesHold(c: Conversions, index: seq<nat>, signals: seq<real>, lines: seq<string>, i: nat)
    requires i < |signals|
    ensures |ApplyLines(c, index, signals, lines)| == |signals|
    ensures ApplyLines(c, index, signals, lines)[i] == LastOfLines(c, index, signals[i], lines, i)
    decreases |lines|
  {
    if lines != [] {
      TokensHold(c, index, signals, Values(lines[0]), 0, i);
      LinesHold(c, index, ApplyLine(c, index, signals, lines[0]), lines[1..], i);
    }
  }

  /** Column `k` of line `l` has a decodable value for signal `i`. */
  ghost predicate Decides(c: Conversions, index: seq<nat>, lines: seq<string>, i: nat, l: nat, k: nat) {
    l < |lines| && TokenDecides(c, index, Values(lines[l]), 0, i, k)
  }

  /** The same for a token, when the first one belongs to column `from`. */
  ghost predicate TokenDecides(c: Conversions, index: seq<nat>, tokens: seq<string>, from: nat, i: nat, k: nat) {
    k < |tokens| && from + k < |index| && index[from + k] == i && c.strtod(tokens[k]).Some?
  }

  lemma {:induction false} TokenShifts(c: Conversions, index: seq<nat>, tokens: seq<string>, from: nat, i: nat, k: nat)
    requires tokens != [] && k > 0
    ensures TokenDecides(c, index, tokens, from, i, k) <==> TokenDecides(c, index, tokens[1..], from + 1, i, k - 1)
  {
  }

  lemma {:induction false} LastToken(c: Conversions, index: seq<nat>, before: real, tokens: seq<string>, from: nat,
      i: nat)
    returns (found: bool, k: nat)
    ensures var held := LastOfTokens(c, index, before, tokens, from, i);
            if found then TokenDecides(c, index, tokens, from, i, k) && held == c.strtod(tokens[k]).value
            else held == before
    ensures forall j: nat :: (found ==> j > k) ==> !TokenDecides(c, index, tokens, from, i, j)
    decreases |tokens|
  {
    found, k := false, 0;
    if tokens != [] {
      var first := TokenDecides(c, index, tokens, from, i, 0);
      if from + 1 < |index| {
        var held := if first then c.strtod(tokens[0]).value else before;
        var later, j := LastToken(c, index, held, tokens[1..], from + 1, i);
        found, k := later || first, if later then j + 1 else 0;
        TokenShifts(c, index, tokens, from, i, j + 1);
        forall m: nat | found ==> m > k
          ensures !TokenDecides(c, index, tokens, from, i, m)
        {
          if m > 0 {
            TokenShifts(c, index, tokens, from, i, m);
          }
        }
      } else {
        found := first;
      }
    }
  }

  /** Line and column (l, k) come before (m, j) in the file. */
  predicate Earlier(l: nat, k: nat, m: nat, j: nat) {
    l < m || (l == m && k < j)
  }

  lemma {:induction false} LineShifts(c: Conversions, index: seq<nat>, lines: seq<string>, i: nat, l: nat, k: nat)
    requires lines != []
    ensures Decides(c, index, lines, i, l, k)
            <==> if l > 0 then Decides(c, index, lines[1..], i, l - 1, k)
                 else TokenDecides(c, index, Values(lines[0]), 0, i, k)
  {
  }

  lemma {:induction false} LastLine(c: Conversions, index: seq<nat>, before: real, lines: seq<string>, i: nat)
    returns (found: bool, l: nat, k: nat)
    ensures var held := LastOfLines(c, index, before, lines, i);
            if found then Decides(c, index, lines, i, l, k) && held == c.strtod(Values(lines[l])[k]).value
            else held == before
    ensures forall m: nat, j: nat :: (found ==> Earlier(l, k, m, j)) ==> !Decides(c, index, lines, i, m, j)
    decreases |lines|
  {
    found, l, k := false, 0, 0;
    if lines != [] {
      var first, n := LastToken(c, index, before, Values(lines[0]), 0, i);
      var held := LastOfTokens(c, index, before, Values(lines[0]), 0, i);
      var later, m, j := LastLine(c, index, held, lines[1..], i);
      found, l, k := later || first, if later then m + 1 else 0, if later then j else n;
      LineShifts(c, index, lines, i, l, k);
      forall m: nat, j: nat | found ==> Earlier(l, k, m, j)
        ensures !Decides(c, index, lines, i, m, j)
      {
        LineShifts(c, index, lines, i, m, j);
      }
    }
  }

  /** Sample and hold, by position: after applying the lines a signal holds the value of the last line and column
      that is indexed to it and can be decoded; without one it holds its value before. */
  lemma {:induction false} LastSampleHeld(c: Conversions, index: seq<nat>, signals: seq<real>, lines: seq<string>,
      i: nat)
    returns (found: bool, l: nat, k: nat)
    requires i < |signals|
    ensures |ApplyLines(c, index, signals, lines)| == |signals|
    ensures var held := ApplyLines(c, index, signals, lines)[i];
            if found then Decides(c, index, lines, i, l, k) && held == c.strtod(Values(lines[l])[k]).value
            else held == signals[i]
    ensures forall m: nat, j: nat :: (found ==> Earlier(l, k, m, j)) ==> !Decides(c, index, lines, i, m, j)
  {
    LinesHold(c, index, signals, lines, i);
    found, l, k := LastLine(c, index, signals[i], lines, i);
  }

  // ----- incremental and batch application -----

  /** Signals and pending lines after applying the samples due at `t`. */
  ghost function Applied(c: Conversions, index: seq<nat>, signals: seq<real>, lines: seq<string>, t: real)
    : (seq<real>, seq<string>)
  {
    var n := Due(c, lines, t);
    (ApplyLines(c, index, signals, lines[..n]), lines[n..])
  }

  lemma {:induction false} ApplyAppended(c: Conversions, index: seq<nat>, signals: seq<real>, a: seq<string>,
      b: seq<string>)
    ensures ApplyLines(c, index, signals, a + b) == ApplyLines(c, index, ApplyLines(c, index, signals, a), b)
    decreases |a|
  {
    if a == [] {
      assert a + b == b;
    } else {
      assert (a + b)[0] == a[0] && (a + b)[1..] == a[1..] + b;
      ApplyAppended(c, index, ApplyLine(c, index, signals, a[0]), a[1..], b);
    }
  }

  lemma {:induction false} DueSplits(c: Conversions, lines: seq<string>, t1: real, t2: real)
    requires t1 <= t2
    ensures Due(c, lines, t1) <= Due(c, lines, t2)
    ensures Due(c, lines, t2) == Due(c, lines, t1) + Due(c, lines[Due(c, lines, t1)..], t2)
  {
    if Due(c, lines, t1) == 0 {
      assert lines[0..] == lines;
    } else {
      DueSplits(c, lines[1..], t1, t2);
      var n := Due(c, lines[1..], t1);
      assert lines[n + 1..] == lines[1..][n..];
    }
  }

  /** Applying up to t1 and then up to t2 is the same as applying up to t2 alone. */
  lemma {:induction false} ApplyTwice(c: Conversions, index: seq<nat>, signals: seq<real>, lines: seq<string>, t1: real,
      t2: real)
    requires t1 <= t2
    ensures var (s, rest) := Applied(c, index, signals, lines, t1);
            Applied(c, index, s, rest, t2) == Applied(c, index, signals, lines, t2)
  {
    var n := Due(c, lines, t1);
    var m := Due(c, lines[n..], t2);
    DueSplits(c, lines, t1, t2);
    assert lines[..n + m] == lines[..n] + lines[n..][..m];
    assert lines[n..][m..] == lines[n + m..];
    ApplyAppended(c, index, signals, lines[..n], lines[n..][..m]);
  }

  /** The samples applied at each of a list of times. */
  ghost function AppliedAt(c: Conversions, index: seq<nat>, signals: seq<real>, lines: seq<string>, times: seq<real>)
    : (seq<real>, seq<string>)
  {
    if times == [] then (signals, lines)
    else
      var (s, rest) := AppliedAt(c, index, signals, lines, times[..|times| - 1]);
      Applied(c, index, s, rest, times[|times| - 1])
  }

  /** The importer applies samples at 0 and after every step. At each point of the run this has had
      the same effect as one batch at the current time. */
  lemma {:induction false} IncrementalIsBatch(c: Conversions, index: seq<nat>, signals: seq<real>, lines: seq<string>,
      times: seq<real>)
    requires times != [] && forall i, j :: 0 <= i < j < |times| ==> times[i] <= times[j]
    ensures AppliedAt(c, index, signals, lines, times) == Applied(c, index, signals, lines, times[|times| - 1])
  {
    var n := |times| - 1;
    if n > 0 {
      IncrementalIsBatch(c, index, signals, lines, times[..n]);
      assert times[..n][n - 1] == times[n - 1];
      ApplyTwice(c, index, signals, lines, times[n - 1], times[n]);
    } else {
      assert times[..0] == [];
    }
  }

  lemma {:induction false} AppliedNext(c: Conversions, index: seq<nat>, signals: seq<real>, lines: seq<string>, t: real)
    requires lines != [] && TimeOf(c, lines[0]).Some? && TimeOf(c, lines[0]).value <= t
    ensures Applied(c, index, signals, lines, t)
            == Applied(c, index, ApplyLine(c, index, signals, lines[0]), lines[1..], t)
  {
    var n := Due(c, lines[1..], t);
    assert lines[..n + 1][0] == lines[0] && lines[..n + 1][1..] == lines[1..][..n];
    assert lines[n + 1..] == lines[1..][n..];
  }

  // ----- the reader -----

  /** CsvDesc. `unread` is the rest of the file, `signals` the importer's storage for rx variables. */
  class CsvDesc {
    const c: Conversions
    const signals: array<real>
    var unread: seq<string>
    var line: string
    var timestamp: real
    var index: seq<nat>

    /** A line is loaded exactly when the timestamp is valid, and then it is that line's time. */
    ghost predicate Valid()
      reads this
    {
      && (timestamp >= 0.0 ==> TimeOf(c, line) == Some(timestamp))
      && forall k :: 0 <= k < |index| ==> index[k] < signals.Length
    }

    /** Without a loaded line the file is at its end. */
    ghost predicate Loaded()
      reads this
    {
      timestamp < 0.0 ==> unread == []
    }

    /** The lines still to be applied. */
    ghost function Pending(): seq<string>
      reads this
    {
      (if timestamp >= 0.0 then [line] else []) + Usable(c, unread)
    }

    constructor (c: Conversions, signals: array<real>, file: seq<string>)
      ensures Valid() && this.c == c && this.signals == signals && unread == file && index == [] && timestamp < 0.0
    {
      this.c, this.signals := c, signals;
      unread, line, timestamp, index := file, "", -1.0, [];
    }

    /** csv_read_line: loads the next usable line; without one, no line is loaded. */
    method ReadLine() returns (ok: bool)
      requires Valid()
      modifies this`timestamp, this`line, this`unread
      ensures Valid() && Loaded() && ok == (timestamp >= 0.0)
      ensures Pending() == Usable(c, old(unread))
    {
      timestamp := -1.0;
      while timestamp < 0.0
        invariant Valid()
        invariant Pending() == Usable(c, old(unread))
        decreases |unread|, timestamp < 0.0
      {
        if unread == [] {
          return false;
        }
        line, unread := unread[0], unread[1..];
        if |line| == 0 {
          continue;
        }
        var ts := c.strtod(line);
        if ts == None {
          continue;
        }
        if ts.value >= 0.0 {
          timestamp := ts.value;
        }
      }
      return true;
    }

    /** csv_index: binds the columns of the first line, then loads the first sample. Fails when a
        column has no signal. */
    method BuildIndex(vrefs: seq<int>) returns (found: bool)
      requires Valid() && |vrefs| == signals.Length && index == []
      modifies this
      ensures found ==> Valid() && Loaded()
      ensures found ==> Binds(c, vrefs, HeaderTokens(old(unread)), index)
      ensures found <==> AllKnown(c, vrefs, HeaderTokens(old(unread)))
      ensures found ==> Pending() == Usable(c, if old(unread) == [] then [] else old(unread)[1..])
    {
      var tokens := [];
      if unread != [] {
        tokens := Values(unread[0]);
        unread := unread[1..];
      }
      assert tokens == HeaderTokens(old(unread));
      index, found := BindColumns(c, vrefs, tokens);
      if found {
        timestamp := -1.0;
        var _ := ReadLine();
      }
    }

    /** The token loop of _apply_samples for the loaded line. */
    method ApplyLoadedLine()
      requires Valid()
      modifies signals
      ensures signals[..] == ApplyLine(c, index, old(signals[..]), line)
    {
      ghost var goal := ApplyLine(c, index, signals[..], line);
      var save := line;
      var first := NextToken(save);
      if first == None {
        return;
      }
      save := first.value.1;
      var idx := 0;
      while true
        invariant ApplyTokens(c, index, signals[..], Tokens(save), idx) == goal
        decreases |save|
      {
        var next := NextToken(save);
        if next == None {
          break;
        }
        assert Tokens(save)[0] == next.value.0 && Tokens(save)[1..] == Tokens(next.value.1);
        ghost var before := signals[..];
        var v := c.strtod(next.value.0);
        if v.Some? {
          if idx < |index| {
            signals[index[idx]] := v.value;
          }
        }
        assert signals[..] == ApplyToken(c, index, before, next.value.0, idx);
        save := next.value.1;
        idx := idx + 1;
        if idx >= |index| {
          break;
        }
      }
    }

    /** _apply_samples: consumes exactly the due lines and applies them in order. */
    method ApplySamples(simulationTime: real)
      requires Valid() && Loaded()
      modifies this`timestamp, this`line, this`unread, signals
      ensures Valid() && Loaded()
      ensures (signals[..], Pending()) == Applied(c, index, old(signals[..]), old(Pending()), simulationTime)
    {
      ghost var goal := Applied(c, index, signals[..], Pending(), simulationTime);
      while timestamp >= 0.0 && timestamp <= simulationTime
        invariant Valid() && Loaded()
        invariant Applied(c, index, signals[..], Pending(), simulationTime) == goal
        decreases |Pending()|
      {
        ghost var lines, before := Pending(), signals[..];
        assert lines[0] == line && lines[1..] == Usable(c, unread);
        ApplyLoadedLine();
        var ok := ReadLine();
        AppliedNext(c, index, before, lines, simulationTime);
        if !ok {
          break;
        }
      }
    }
  }

  // ----- whole files -----

  /** A sample of a file: its time and its fields, column by column. */
  datatype Row = Row(time: string, fields: seq<string>)

  /** Every field is there, and holds no delimiter. */
  ghost predicate RowOk(row: Row) {
    && row.time != [] && Field(row.time)
    && forall f :: f in row.fields ==> f != [] && Field(f)
  }

  function LineOf(row: Row): string {
    Join([row.time] + row.fields)
  }

  function LinesOf(rows: seq<Row>): (r: seq<string>)
    ensures |r| == |rows| && forall k :: 0 <= k < |r| ==> r[k] == LineOf(rows[k])
  {
    seq(|rows|, k requires 0 <= k < |rows| => LineOf(rows[k]))
  }

  /** The fields behind the first are what is read from a line. */
  lemma {:induction false} ValuesOfRow(row: Row)
    requires RowOk(row)
    ensures Values(LineOf(row)) == row.fields
  {
    var all := [row.time] + row.fields;
    TokensOfLine(all);
    assert Tokens(LineOf(row)) == all;
    assert all[1..] == row.fields;
    var next := NextToken(LineOf(row));
    assert Tokens(LineOf(row)) == [next.value.0] + Tokens(next.value.1);
    assert ([next.value.0] + Tokens(next.value.1))[1..] == Tokens(next.value.1);
  }

  /** The rows that are due at `t`: rows without a time that can be converted, or with a negative one, are passed
      over; the first row later than `t` ends them. */
  ghost function DueRows(c: Conversions, rows: seq<Row>, t: real): seq<Row> {
    if rows == [] then []
    else
      var time := c.strtod(LineOf(rows[0]));
      if time == None || time.value < 0.0 then DueRows(c, rows[1..], t)
      else if time.value <= t then [rows[0]] + DueRows(c, rows[1..], t)
      else []
  }

  lemma {:induction false} DueOneMore(c: Conversions, line: string, later: seq<string>, t: real)
    requires TimeOf(c, line).Some?
    ensures var usable := [line] + later;
            usable[..Due(c, usable, t)] == if TimeOf(c, line).value <= t then [line] + later[..Due(c, later, t)] else []
  {
    assert ([line] + later)[1..] == later;
  }

  lemma {:induction false} LinesOfMore(row: Row, rest: seq<Row>)
    ensures LinesOf([row] + rest) == [LineOf(row)] + LinesOf(rest)
  {
  }

  lemma {:induction false} DueLines(c: Conversions, rows: seq<Row>, t: real)
    ensures var usable := Usable(c, LinesOf(rows));
            usable[..Due(c, usable, t)] == LinesOf(DueRows(c, rows, t))
  {
    if rows != [] {
      var first, rest := rows[0], rows[1..];
      DueLines(c, rest, t);
      LineIsNotEmpty(first);
      assert rows == [first] + rest;
      LinesOfMore(first, rest);
      LinesOfMore(first, DueRows(c, rest, t));
      var line, later := LineOf(first), Usable(c, LinesOf(rest));
      assert ([line] + LinesOf(rest))[1..] == LinesOf(rest);
      if TimeOf(c, line).Some? {
        DueOneMore(c, line, later, t);
      } else {
        assert [] + later == later;
      }
    }
  }

  lemma {:induction false} LineIsNotEmpty(row: Row)
    ensures LineOf(row) != []
  {
  }

  /** Field `k` of row `l` is a number for signal `i`: the signal is the first one with the reference that the
      header has for column `k`. Columns beyond the number of signals are not indexed. */
  ghost predicate Settles(c: Conversions, refs: seq<string>, vrefs: seq<int>, rows: seq<Row>, i: nat, l: nat, k: nat) {
    && l < |rows| && k < |rows[l].fields| && k < |refs| && k < |vrefs|
    && FirstAt(vrefs, c.atoi(refs[k]), i) && c.strtod(rows[l].fields[k]).Some?
  }

  /** The value by the file: that of the last row and column that has a number for the signal, or the value before
      when there is none. */
  ghost predicate HeldByFile(c: Conversions, refs: seq<string>, vrefs: seq<int>, rows: seq<Row>, i: nat, before: real,
      held: real)
  {
    || (held == before && forall l: nat, k: nat :: !Settles(c, refs, vrefs, rows, i, l, k))
    || (exists l: nat, k: nat ::
          LastSettles(c, refs, vrefs, rows, i, l, k) && c.strtod(rows[l].fields[k]) == Some(held))
  }

  ghost predicate LastSettles(c: Conversions, refs: seq<string>, vrefs: seq<int>, rows: seq<Row>, i: nat, l: nat,
      k: nat)
  {
    && Settles(c, refs, vrefs, rows, i, l, k)
    && forall m: nat, j: nat :: Earlier(l, k, m, j) ==> !Settles(c, refs, vrefs, rows, i, m, j)
  }

  lemma {:induction false} FirstIsUnique(vrefs: seq<int>, vr: int, a: nat, b: nat)
    requires FirstAt(vrefs, vr, a) && FirstAt(vrefs, vr, b)
    ensures a == b
  {
  }

  lemma {:induction false} SettlesIsDecides(c: Conversions, refs: seq<string>, vrefs: seq<int>, index: seq<nat>,
      rows: seq<Row>, i: nat, l: nat, k: nat)
    requires Binds(c, vrefs, refs, index) && forall m :: 0 <= m < |rows| ==> RowOk(rows[m])
    ensures Settles(c, refs, vrefs, rows, i, l, k) <==> Decides(c, index, LinesOf(rows), i, l, k)
  {
    if l < |rows| {
      ValuesOfRow(rows[l]);
      if k < |index| && FirstAt(vrefs, c.atoi(refs[k]), i) {
        FirstIsUnique(vrefs, c.atoi(refs[k]), i, index[k]);
      }
    }
  }

  lemma {:induction false} FileHolds(c: Conversions, refs: seq<string>, vrefs: seq<int>, index: seq<nat>,
      rows: seq<Row>, signals: seq<real>, i: nat)
    requires Binds(c, vrefs, refs, index) && forall m :: 0 <= m < |rows| ==> RowOk(rows[m])
    requires i < |signals|
    ensures |ApplyLines(c, index, signals, LinesOf(rows))| == |signals|
    ensures HeldByFile(c, refs, vrefs, rows, i, signals[i], ApplyLines(c, index, signals, LinesOf(rows))[i])
  {
    var found, l, k := LastSampleHeld(c, index, signals, LinesOf(rows), i);
    forall m: nat, j: nat
      ensures Settles(c, refs, vrefs, rows, i, m, j) <==> Decides(c, index, LinesOf(rows), i, m, j)
    {
      SettlesIsDecides(c, refs, vrefs, index, rows, i, m, j);
    }
    if found {
      ValuesOfRow(rows[l]);
      assert LastSettles(c, refs, vrefs, rows, i, l, k);
    }
  }

  lemma {:induction false} DueRowsAreRows(c: Conversions, rows: seq<Row>, t: real)
    ensures forall r :: r in DueRows(c, rows, t) ==> r in rows
  {
    if rows != [] {
      DueRowsAreRows(c, rows[1..], t);
    }
  }

  /** A whole file, from its header to the samples due at a time: the header names a reference for each column behind
      the first, and every signal holds the number of the last due row and column with its reference. */
  method ReplayFile(c: Conversions, signals: array<real>, vrefs: seq<int>, title: string, refs: seq<string>,
      rows: seq<Row>, t: real) returns (csv: CsvDesc, found: bool)
    requires |vrefs| == signals.Length && RowOk(Row(title, refs)) && forall m :: 0 <= m < |rows| ==> RowOk(rows[m])
    modifies signals
    ensures fresh(csv)
    ensures found <==> forall k :: 0 <= k < |refs| && k < |vrefs| ==> c.atoi(refs[k]) in vrefs
    ensures !found ==> signals[..] == old(signals[..])
    ensures found ==> forall i :: 0 <= i < signals.Length ==>
              HeldByFile(c, refs, vrefs, DueRows(c, rows, t), i, old(signals[i]), signals[i])
  {
    ghost var before := signals[..];
    var file := [LineOf(Row(title, refs))] + LinesOf(rows);
    assert file[0] == LineOf(Row(title, refs)) && file[1..] == LinesOf(rows);
    csv := new CsvDesc(c, signals, file);
    ValuesOfRow(Row(title, refs));
    found := csv.BuildIndex(vrefs);
    if found {
      csv.ApplySamples(t);
      ReplayHolds(c, refs, vrefs, csv.index, rows, before, signals[..], t);
    }
  }

  lemma {:induction false} ReplayHolds(c: Conversions, refs: seq<string>, vrefs: seq<int>, index: seq<nat>,
      rows: seq<Row>, before: seq<real>, after: seq<real>, t: real)
    requires Binds(c, vrefs, refs, index) && forall m :: 0 <= m < |rows| ==> RowOk(rows[m])
    requires after == Applied(c, index, before, Usable(c, LinesOf(rows)), t).0
    ensures |after| == |before|
    ensures forall i :: 0 <= i < |before| ==> HeldByFile(c, refs, vrefs, DueRows(c, rows, t), i, before[i], after[i])
  {
    var due := DueRows(c, rows, t);
    DueLines(c, rows, t);
    DueRowsAreRows(c, rows, t);
    forall m | 0 <= m < |due|
      ensures RowOk(due[m])
    {
      assert due[m] in rows;
    }
    ApplyKeepsLength(c, index, before, LinesOf(due));
    forall i | 0 <= i < |before|
      ensures HeldByFile(c, refs, vrefs, due, i, before[i], after[i])
    {
      FileHolds(c, refs, vrefs, index, due, before, i);
    }
  }

  lemma {:induction false} ApplyKeepsLength(c: Conversions, index: seq<nat>, signals: seq<real>, lines: seq<string>)
    ensures |ApplyLines(c, index, signals, lines)| == |signals|
    decreases |lines|
  {
    if lines != [] {
      ApplyKeepsLength(c, index, ApplyLine(c, index, signals, lines[0]), lines[1..]);
    }
  }

  ghost function HeaderTokens(file: seq<string>): seq<string> {
    if file == [] then [] else Values(file[0])
  }

  /** One column per token, up to the number of signals; each is bound to the first signal with that
      reference. */
  ghost predicate Binds(c: Conversions, vrefs: seq<int>, tokens: seq<string>, index: seq<nat>) {
    && |index| == (if |tokens| <= |vrefs| then |tokens| else |vrefs|)
    && forall k :: 0 <= k < |index| ==> FirstAt(vrefs, c.atoi(tokens[k]), index[k])
  }

  ghost predicate AllKnown(c: Conversions, vrefs: seq<int>, tokens: seq<string>) {
    forall k :: 0 <= k < |tokens| && k < |vrefs| ==> c.atoi(tokens[k]) in vrefs
  }

  ghost predicate FirstAt(vrefs: seq<int>, vr: int, i: nat) {
    i < |vrefs| && vrefs[i] == vr && forall k :: 0 <= k < i ==> vrefs[k] != vr
  }

  /** The column loop of csv_index. */
  method BindColumns(c: Conversions, vrefs: seq<int>, tokens: seq<string>) returns (index: seq<nat>, found: bool)
    ensures found ==> Binds(c, vrefs, tokens, index)
    ensures found <==> AllKnown(c, vrefs, tokens)
  {
    index := [];
    for k := 0 to |tokens|
      invariant |index| == k <= |vrefs|
      invariant forall j :: 0 <= j < k ==> FirstAt(vrefs, c.atoi(tokens[j]), index[j])
    {
      if k >= |vrefs| {
        break;
      }
      var i := FirstWith(vrefs, c.atoi(tokens[k]));
      if i == |vrefs| {
        return index, false;
      }
      index := index + [i];
    }
    return index, true;
  }

  /** Position of the first entry with a value, or the length. */
  method FirstWith(vrefs: seq<int>, vr: int) returns (i: nat)
    ensures i <= |vrefs| && (i < |vrefs| ==> vrefs[i] == vr)
    ensures forall k :: 0 <= k < i ==> vrefs[k] != vr
  {
    i := 0;
    while i < |vrefs|
      invariant i <= |vrefs| && forall k :: 0 <= k < i ==> vrefs[k] != vr
    {
      if vrefs[i] == vr {
        return;
      }
      i := i + 1;
    }
  }
}
