/** Transfer specifications `source:destination` and the loop of the
    `transfer` command that turns them into transfer items. The loop is the
    same in globus/cli.py and in the older globus.py. */
module TransferSpecs {
  import opened Outcomes
  import opened Text

  /** One item of a transfer: a file, or a whole directory when `recursive`. */
  datatype Item = Item(source: string, destination: string, recursive: bool)

  /** Why a specification is refused. `NotOnePair`: `src, dst = t.split(":")`
      cannot unpack (a ValueError); `EmptyPath`: `src[-1]` or `dst[-1]` on an
      empty path (an IndexError); `MixedDirectory`: exactly one side ends in
      `/`, which the command reports itself. */
  datatype SpecError = NotOnePair | EmptyPath | MixedDirectory

  /** The first specification of a command line that is refused, and why. */
  datatype Rejection = Rejection(spec: string, error: SpecError)

  predicate EndsWithSlash(path: string) {
    |path| > 0 && path[|path| - 1] == '/'
  }

  /** How the item is written on the command line. */
  function FormatSpec(item: Item): string {
    item.source + ":" + item.destination
  }

  /** The classification of one specification `t` by the loop body. */
  function ParseSpec(t: string): (r: Result<Item, SpecError>)
    ensures r.Ok? ==> EndsWithSlash(r.value.source) == EndsWithSlash(r.value.destination)
    ensures r.Ok? ==> r.value.recursive == EndsWithSlash(r.value.source)
  {
    var parts := Split(t, ':');
    if |parts| != 2 then Err(NotOnePair)
    else
      var src, dst := parts[0], parts[1];
      if src == [] || dst == [] then Err(EmptyPath)
      else if src[|src| - 1] == '/' && dst[|dst| - 1] == '/' then Ok(Item(src, dst, true))
      else if src[|src| - 1] == '/' || dst[|dst| - 1] == '/' then Err(MixedDirectory)
      else Ok(Item(src, dst, false))
  }

  /** An accepted specification is exactly `source:destination` of its item,
      with two non-empty paths that hold no colon. */
  lemma ParseSpecSound(t: string)
    requires ParseSpec(t).Ok?
    ensures var item := ParseSpec(t).value;
      && t == FormatSpec(item)
      && item.source != [] && item.destination != []
      && ':' !in item.source && ':' !in item.destination
  {
    var parts := Split(t, ':');
    SplitJoin(t, ':');
    assert parts[1..] == [parts[1]];
  }

  /** Every pairing of two colon-free, non-empty paths is classified by its
      trailing slashes: both give a recursive item, neither a file item, and
      exactly one is refused. Together with ParseSpecSound this is the round
      trip `ParseSpec(FormatSpec(item)) == Ok(item)` for every well-formed item. */
  lemma ParseSpecClassifies(src: string, dst: string)
    requires src != [] && dst != [] && ':' !in src && ':' !in dst
    ensures ParseSpec(src + ":" + dst) ==
      if EndsWithSlash(src) && EndsWithSlash(dst) then Ok(Item(src, dst, true))
      else if EndsWithSlash(src) || EndsWithSlash(dst) then Err(MixedDirectory)
      else Ok(Item(src, dst, false))
  {
    SplitPair(src, dst, ':');
  }

  /** The items the loop adds for `specs` when all are accepted, or the first
      refused specification. */
  function ParseAll(specs: seq<string>): (r: Result<seq<Item>, Rejection>)
    ensures r.Ok? ==> |r.value| == |specs|
  {
    if specs == [] then Ok([])
    else
      match ParseAll(specs[..|specs| - 1])
      case Err(rejection) => Err(rejection)
      case Ok(items) =>
        var t := specs[|specs| - 1];
        match ParseSpec(t)
        case Err(e) => Err(Rejection(t, e))
        case Ok(item) => Ok(items + [item])
  }

  /** All specifications are accepted exactly when each one is, and then the
      items are those of the specifications, in input order. */
  lemma {:induction false} ParseAllItems(specs: seq<string>)
    ensures ParseAll(specs).Ok? <==> forall i :: 0 <= i < |specs| ==> ParseSpec(specs[i]).Ok?
    ensures ParseAll(specs).Ok? ==>
      forall i :: 0 <= i < |specs| ==> ParseAll(specs).value[i] == ParseSpec(specs[i]).value
    decreases |specs|
  {
    if specs != [] {
      var init := specs[..|specs| - 1];
      ParseAllItems(init);
      assert forall i :: 0 <= i < |init| ==> init[i] == specs[i];
    }
  }

  /** A refusal names the first refused specification: every one before it is accepted. */
  lemma {:induction false} ParseAllFirstRejection(specs: seq<string>)
    requires ParseAll(specs).Err?
    ensures exists i :: (0 <= i < |specs| && specs[i] == ParseAll(specs).error.spec
      && ParseSpec(specs[i]) == Err(ParseAll(specs).error.error)
      && forall j :: 0 <= j < i ==> ParseSpec(specs[j]).Ok?)
    decreases |specs|
  {
    var init := specs[..|specs| - 1];
    var n := |specs| - 1;
    if ParseAll(init).Err? {
      ParseAllFirstRejection(init);
      var i :| 0 <= i < |init| && init[i] == ParseAll(init).error.spec
        && ParseSpec(init[i]) == Err(ParseAll(init).error.error)
        && forall j :: 0 <= j < i ==> ParseSpec(init[j]).Ok?;
      assert specs[i] == init[i];
      assert forall j :: 0 <= j < i ==> specs[j] == init[j];
    } else {
      ParseAllItems(init);
      assert forall j :: 0 <= j < n ==> specs[j] == init[j];
      assert specs[n] == ParseAll(specs).error.spec;
    }
  }

  /** Once a prefix is refused, the whole command line is refused the same way. */
  lemma {:induction false} ParseAllRejectionSticks(specs: seq<string>, k: nat)
    requires k <= |specs| && ParseAll(specs[..k]).Err?
    ensures ParseAll(specs) == ParseAll(specs[..k])
    decreases |specs| - k
  {
    if k < |specs| {
      assert specs[..k + 1][..k] == specs[..k];
      ParseAllRejectionSticks(specs, k + 1);
    } else {
      assert specs[..k] == specs;
    }
  }

  /** The loop `for t in transfers: ... tdata.add_item(...)` of the `transfer`
      command (globus/cli.py:591-604, globus.py:90-104): items are added in
      input order and the first refused specification ends the loop. */
  method AddTransferItems(specs: seq<string>) returns (r: Result<seq<Item>, Rejection>)
    ensures r == ParseAll(specs)
  {
    var items: seq<Item> := [];
    var i := 0;
    while i < |specs|
      invariant 0 <= i <= |specs|
      invariant ParseAll(specs[..i]) == Ok(items)
    {
      var t := specs[i];
      assert specs[..i + 1][..i] == specs[..i];
      match ParseSpec(t)
      case Err(e) =>
        ParseAllRejectionSticks(specs, i + 1);
        return Err(Rejection(t, e));
      case Ok(item) =>
        items := items + [item];
      i := i + 1;
    }
    assert specs[..i] == specs;
    r := Ok(items);
  }
}
