/** The two pieces of display logic of globus/cli.py that carry a decision:
    the colour of a row in `history`, and the tree layout of a job in `status`. */
module StatusFormat {
  import opened Outcomes

  /** The foreground colours `history_style` chooses from. */
  datatype Colour = Blue | Green | Red

  /** `history_style` (globus/cli.py:368-371): a lookup in a three-entry
      dictionary; any other status raises `KeyError`. */
  function HistoryStyle(status: string): (r: Outcome<Colour>)
    ensures r.Done? <==> status == "ACTIVE" || status == "SUCCEEDED" || status == "FAILED"
    ensures r.Exit? ==> r.code == Crash
  {
    if status == "ACTIVE" then Done(Blue)
    else if status == "SUCCEEDED" then Done(Green)
    else if status == "FAILED" then Done(Red)
    else Exit(Crash)
  }

  /** The three known statuses get three different colours. */
  lemma HistoryStyleDistinct(s: string, t: string)
    requires HistoryStyle(s).Done? && HistoryStyle(t).Done? && s != t
    ensures HistoryStyle(s).value != HistoryStyle(t).value
  {
  }

  const BRANCH: string := "├─ "
  const LAST: string := "└─ "

  /** `list(filter(None, lines))`: drops the absent lines (`None`) and the
      empty strings, keeping the order of the rest. */
  function Present(lines: seq<Option<string>>): (p: seq<string>)
    ensures |p| <= |lines|
    ensures forall i :: 0 <= i < |p| ==> p[i] != ""
  {
    if lines == [] then []
    else
      var rest := Present(lines[..|lines| - 1]);
      match lines[|lines| - 1]
      case None => rest
      case Some(s) => if s == "" then rest else rest + [s]
  }

  /** A line is shown exactly when it is present and non-empty. */
  lemma {:induction false} PresentMembers(lines: seq<Option<string>>, s: string)
    ensures s in Present(lines) <==> s != "" && Some(s) in lines
  {
    if lines != [] {
      PresentMembers(lines[..|lines| - 1], s);
      assert lines == lines[..|lines| - 1] + [lines[|lines| - 1]];
    }
  }

  /** The rows of globus/cli.py:710-716: the first present line as it is,
      the middle ones behind a branch, the last behind a corner, then an
      empty row. `lines[0]` of an empty list raises `IndexError`. A single
      line is shown twice, once as the head and once behind the corner. */
  method TreeRows(lines: seq<Option<string>>) returns (r: Outcome<seq<string>>)
    ensures r.Exit? <==> Present(lines) == []
    ensures r.Exit? ==> r.code == Crash
    ensures r.Done? ==>
      var p := Present(lines);
      var rows := r.value;
      |rows| == (if |p| == 1 then 3 else |p| + 1)
      && rows[0] == p[0]
      && (forall i :: 1 <= i < |p| - 1 ==> rows[i] == BRANCH + p[i])
      && rows[|rows| - 2] == LAST + p[|p| - 1]
      && rows[|rows| - 1] == ""
  {
    var p := Present(lines);
    if p == [] {
      return Exit(Crash);
    }
    var rows := [p[0]];
    var i := 1;
    while i < |p| - 1
      invariant 1 <= i <= if |p| == 1 then 1 else |p| - 1
      invariant |rows| == i && rows[0] == p[0]
      invariant forall j :: 1 <= j < i ==> rows[j] == BRANCH + p[j]
    {
      rows := rows + [BRANCH + p[i]];
      i := i + 1;
    }
    rows := rows + [LAST + p[|p| - 1]];
    rows := rows + [""];
    r := Done(rows);
  }
}
