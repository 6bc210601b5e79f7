/** devices/archon/archon.cpp, load_timing_script: a script becomes the numbered LINE keys. */
module ArchonScript {
  import opened Results
  import opened Text
  import opened ArchonStore
  import opened ArchonRuns

  function LineKey(i: nat): string {
    "LINE" + Dec(i)
  }

  /** Writes lines i and up, then the number of lines. */
  function LoadFrom(a: Archon, ls: seq<string>, i: nat): (r: (Archon, Result<()>))
    requires WellFormed(a) && i <= |ls|
    ensures WellFormed(r.0)
    decreases |ls| - i
  {
    if i == |ls| then WriteKeyValue(a, "LINES", Dec(i))
    else
      var (b, w) := WriteKeyValue(a, LineKey(i), ls[i]);
      if w.Err? then (b, w) else LoadFrom(b, ls, i + 1)
  }

  function LoadTimingScript(a: Archon, script: string): (r: (Archon, Result<()>))
    requires WellFormed(a)
    ensures WellFormed(r.0)
  {
    LoadFrom(a, Lines(script), 0)
  }

  // ---- keys ----

  lemma LineKeyIsPlain(i: nat)
    ensures '=' !in LineKey(i) && OneLine(LineKey(i)) && LineKey(i) != "LINES"
  {
    assert LineKey(i)[4] == Dec(i)[0];
    assert forall c | c in LineKey(i) :: c in "LINE" || c in Dec(i);
  }

  lemma LineKeyInjective(i: nat, j: nat)
    ensures LineKey(i) == LineKey(j) <==> i == j
  {
    PrintInjective(i, j, 10);
    assert LineKey(i)[4..] == Dec(i) && LineKey(j)[4..] == Dec(j);
  }

  function LineKeys(i: nat, n: nat): (keys: set<string>)
    decreases n - i
  {
    if i >= n then {} else {LineKey(i)} + LineKeys(i + 1, n)
  }

  lemma {:induction false} InLineKeys(i: nat, n: nat, k: nat)
    ensures LineKey(k) in LineKeys(i, n) <==> i <= k < n
    decreases n - i
  {
    if i >= n {
    } else {
      InLineKeys(i + 1, n, k);
      LineKeyInjective(i, k);
    }
  }

  lemma {:induction false} LineKeysCount(i: nat, n: nat)
    requires i <= n
    ensures |LineKeys(i, n)| == n - i
    decreases n - i
  {
    if i >= n {
    } else {
      LineKeysCount(i + 1, n);
      InLineKeys(i + 1, n, i);
    }
  }

  // ---- what a load does ----

  predicate LinesFit(ls: seq<string>, i: nat) {
    forall j | i <= j < |ls| :: |LineKey(j)| + 1 + |ls[j]| < MAX_LINES
  }

  /** The same load on a plain map. */
  function MapLoad(m: map<string, string>, ls: seq<string>, i: nat): (map<string, string>, Result<()>)
    requires i <= |ls|
    decreases |ls| - i
  {
    if i == |ls| then MapWrite(m, "LINES", Dec(i))
    else
      var (m', w) := MapWrite(m, LineKey(i), ls[i]);
      if w.Err? then (m', w) else MapLoad(m', ls, i + 1)
  }

  lemma Grows(a: set<string>, b: set<string>)
    ensures |a| <= |a + b| && |b| <= |a + b|
  {
    SubsetSize(a, a + b);
    SubsetSize(b, a + b);
  }

  lemma {:induction false} SubsetSize(a: set<string>, b: set<string>)
    requires a <= b
    ensures |a| <= |b|
  {
    if a == {} {
    } else {
      var x :| x in a;
      SubsetSize(a - {x}, b - {x});
    }
  }

  /** Room for lines i and up beside the given keys. */
  predicate Room(keys: set<string>, ls: seq<string>, i: nat) {
    |keys + LineKeys(i, |ls|)| < MAX_LINES && LinesFit(ls, i)
  }

  lemma LineIsWritten(a: Archon, ls: seq<string>, i: nat)
    requires Calm(a) && i < |ls| && OneLine(ls[i])
    ensures var (b, w) := WriteKeyValue(a, LineKey(i), ls[i]);
            Calm(b) && (View(b), w) == MapWrite(View(a), LineKey(i), ls[i]) && b.params == a.params
  {
    LineKeyIsPlain(i);
    CalmWrite(a, LineKey(i), ls[i]);
  }

  lemma CountIsWritten(a: Archon, n: nat)
    requires Calm(a)
    ensures var (b, w) := WriteKeyValue(a, "LINES", Dec(n));
            Calm(b) && (View(b), w) == MapWrite(View(a), "LINES", Dec(n)) && b.params == a.params
  {
    DecIsOneLine(n);
    CalmWrite(a, "LINES", Dec(n));
  }

  lemma {:induction false} LoadRefinesMap(a: Archon, ls: seq<string>, i: nat)
    requires Calm(a) && i <= |ls| && forall j | i <= j < |ls| :: OneLine(ls[j])
    ensures var (b, r) := LoadFrom(a, ls, i);
            Calm(b) && (View(b), r) == MapLoad(View(a), ls, i) && b.params == a.params
    decreases |ls| - i
  {
    hide WriteKeyValue, MapWrite, LineKey, Dec;
    if i == |ls| {
      CountIsWritten(a, i);
    } else {
      LineIsWritten(a, ls, i);
      LoadRefinesMap(WriteKeyValue(a, LineKey(i), ls[i]).0, ls, i + 1);
    }
  }

  lemma DecIsOneLine(n: nat)
    ensures OneLine(Dec(n)) && '=' !in Dec(n) && AllPrint(Dec(n))
  {
    assert forall c | IsDigit(c, 10) :: IsPrint(c) && c != '=';
    assert !IsPrint('\n');
  }

  lemma RoomForOne(keys: set<string>, ls: seq<string>, i: nat)
    requires i < |ls|
    ensures Room(keys, ls, i)
            <==> (Room(keys + {LineKey(i)}, ls, i + 1) && |LineKey(i)| + 1 + |ls[i]| < MAX_LINES)
    ensures Room(keys, ls, i) ==> |keys| < MAX_LINES
  {
    hide LineKey;
    Grows(keys, LineKeys(i, |ls|));
    assert keys + {LineKey(i)} + LineKeys(i + 1, |ls|) == keys + LineKeys(i, |ls|);
  }

  lemma LastNeedsRoom(m: map<string, string>, ls: seq<string>)
    ensures Room(m.Keys, ls, |ls|) <==> |m| < MAX_LINES
  {
    assert m.Keys + LineKeys(|ls|, |ls|) == m.Keys;
    assert |m| == |m.Keys|;
  }

  lemma {:induction false} LoadNeedsRoom(m: map<string, string>, ls: seq<string>, i: nat)
    requires i <= |ls|
    ensures MapLoad(m, ls, i).1.Ok? ==> Room(m.Keys, ls, i)
    ensures Room(m.Keys, ls, i) && |Dec(|ls|)| < 100 ==> MapLoad(m, ls, i).1.Ok?
    decreases |ls| - i
  {
    hide Room, LineKeys, LineKey, Dec;
    if i == |ls| {
      LastNeedsRoom(m, ls);
    } else {
      RoomForOne(m.Keys, ls, i);
      assert |m| == |m.Keys|;
      var m' := m[LineKey(i) := ls[i]];
      assert m'.Keys == m.Keys + {LineKey(i)};
      LoadNeedsRoom(m', ls, i + 1);
    }
  }

  /** A load, successful or not, leaves every key alone that is neither LINES nor one of the
      script's lines. */
  lemma {:induction false} LoadTouchesOnlyLines(m: map<string, string>, ls: seq<string>, i: nat, key: string)
    requires i <= |ls| && key != "LINES" && key !in LineKeys(i, |ls|)
    ensures var m' := MapLoad(m, ls, i).0;
            (key in m' <==> key in m) && (key in m ==> m'[key] == m[key])
    decreases |ls| - i
  {
    if i >= |ls| {
    } else {
      LoadTouchesOnlyLines(MapWrite(m, LineKey(i), ls[i]).0, ls, i + 1, key);
    }
  }

  lemma {:induction false} LoadStoresLines(m: map<string, string>, ls: seq<string>, i: nat)
    requires i <= |ls| && MapLoad(m, ls, i).1.Ok?
    ensures var m' := MapLoad(m, ls, i).0;
            && "LINES" in m' && m'["LINES"] == Dec(|ls|)
            && forall j | i <= j < |ls| :: LineKey(j) in m' && m'[LineKey(j)] == ls[j]
    decreases |ls| - i
  {
    if i >= |ls| {
    } else {
      var m1 := MapWrite(m, LineKey(i), ls[i]).0;
      LoadStoresLines(m1, ls, i + 1);
      InLineKeys(i + 1, |ls|, i);
      LineKeyIsPlain(i);
      LoadTouchesOnlyLines(m1, ls, i + 1, LineKey(i));
    }
  }

  lemma {:induction false} LinesAreOneLine(s: string)
    ensures forall j | 0 <= j < |Lines(s)| :: OneLine(Lines(s)[j])
  {
    if s == "" {
    } else {
      var n := LineLength(s);
      if n < |s| {
        LinesAreOneLine(s[n + 1..]);
      }
    }
  }

  lemma FewLines(n: nat)
    requires n < MAX_LINES
    ensures |Dec(n)| <= 4 && Stoi(Dec(n)) == Ok(n)
  {
    PrintLength(n, 10, 4);
    assert Power(10, 4) == 10 * Power(10, 3) == 100 * Power(10, 2) == 10000;
    StoiOfDec(n);
  }

  /** A script load succeeds exactly when the line keys fit beside the keys already there and
      every line fits in a request. */
  lemma LoadSucceeds(a: Archon, script: string)
    requires Calm(a)
    ensures LoadTimingScript(a, script).1.Ok? <==> Room(View(a).Keys, Lines(script), 0)
    ensures Room(View(a).Keys, Lines(script), 0) ==> |Lines(script)| < MAX_LINES
  {
    var ls := Lines(script);
    LinesAreOneLine(script);
    LoadRefinesMap(a, ls, 0);
    LoadNeedsRoom(View(a), ls, 0);
    Grows(View(a).Keys, LineKeys(0, |ls|));
    LineKeysCount(0, |ls|);
    if |ls| < MAX_LINES {
      FewLines(|ls|);
    }
  }

  /** Main result: after a successful load, LINES reads the number of lines and LINE0, LINE1,
      ... read the lines in order (less characters that are not printable), whatever script
      was loaded before. */
  lemma ScriptReadsBack(a: Archon, script: string, j: nat)
    requires Calm(a) && LoadTimingScript(a, script).1.Ok? && j < |Lines(script)|
    ensures var b := LoadTimingScript(a, script).0;
            && ReadKeyValue(b, "LINES").1 == Ok(Dec(|Lines(script)|))
            && Stoi(Dec(|Lines(script)|)) == Ok(|Lines(script)|)
            && ReadKeyValue(b, "LINE" + Dec(j)).1 == Ok(Printable(Lines(script)[j]))
  {
    var b, ls := LoadTimingScript(a, script).0, Lines(script);
    LinesAreOneLine(script);
    LoadRefinesMap(a, ls, 0);
    LoadSucceeds(a, script);
    FewLines(|ls|);
    LoadStoresLines(View(a), ls, 0);
    DecIsOneLine(|ls|);
    LineKeyIsPlain(j);
    CalmRead(b, "LINES");
    CalmRead(b, LineKey(j));
  }

  lemma {:induction false} NoLineKey(i: nat, n: nat, key: string)
    requires forall k: nat | i <= k < n :: key != "LINE" + Dec(k)
    ensures key !in LineKeys(i, n)
    decreases n - i
  {
    if i >= n {
    } else {
      NoLineKey(i + 1, n, key);
    }
  }

  /** Keys that are no line of the script read as before, whether or not the load succeeds. */
  lemma OtherKeysUntouched(a: Archon, script: string, key: string)
    requires Calm(a) && '=' !in key && key != "LINES"
    requires forall k: nat | k < |Lines(script)| :: key != "LINE" + Dec(k)
    ensures ReadKeyValue(LoadTimingScript(a, script).0, key).1 == ReadKeyValue(a, key).1
  {
    LinesAreOneLine(script);
    LoadRefinesMap(a, Lines(script), 0);
    NoLineKey(0, |Lines(script)|, key);
    LoadTouchesOnlyLines(View(a), Lines(script), 0, key);
    CalmRead(a, key);
    CalmRead(LoadTimingScript(a, script).0, key);
  }

  function Join(ls: seq<string>): string {
    if ls == [] then "" else ls[0] + "\n" + Join(ls[1..])
  }

  /** A text whose last line is ended by a newline. */
  function Ended(s: string): string {
    if s == "" || s[|s| - 1] == '\n' then s else s + "\n"
  }

  lemma EndedCutAt(s: string, n: nat)
    requires n < |s| && s[n] == '\n'
    ensures Ended(s) == s[..n] + "\n" + Ended(s[n + 1..])
  {
    var rest := s[n + 1..];
    assert s == s[..n] + "\n" + rest;
    if rest != "" && rest[|rest| - 1] != '\n' {
      assert s[..n] + "\n" + (rest + "\n") == s + "\n";
    }
  }

  lemma JoinOne(s: string)
    ensures Join([s]) == s + "\n"
  {
    var ls := [s];
    assert ls[1..] == [];
    assert s + "\n" + "" == s + "\n";
  }

  lemma JoinMore(s: string, ls: seq<string>)
    ensures Join([s] + ls) == s + "\n" + Join(ls)
  {
    assert ([s] + ls)[1..] == ls;
  }

  /** The lines of a script are its text cut at the newlines, in order and complete. */
  lemma {:induction false} LinesAreTheScript(s: string)
    ensures Join(Lines(s)) == Ended(s)
  {
    if s == "" {
    } else {
      var n := LineLength(s);
      if n < |s| {
        hide Ended, Join;
        LinesAreTheScript(s[n + 1..]);
        JoinMore(s[..n], Lines(s[n + 1..]));
        EndedCutAt(s, n);
      } else {
        hide Join;
        JoinOne(s);
        var none: seq<string> := [];
        assert s[..n] == s && [s] + none == [s];
      }
    }
  }
}
