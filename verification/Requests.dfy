/** A whole update request: parse everything, then run the updates in processing order. */
module Requests {
  import opened Options
  import opened TableMetadata
  import opened Updates
  import opened Handlers
  import opened StableSort

  datatype ParseOutcome = AllParsed(us: seq<Update>) | FirstBad(failure: Failure)

  function ParseAll(raws: seq<RawUpdate>): ParseOutcome {
    if raws == [] then AllParsed([])
    else
      var last := raws[|raws| - 1];
      match ParseAll(raws[..|raws| - 1])
      case FirstBad(f) => FirstBad(f)
      case AllParsed(us) =>
        match ParseUpdate(last)
        case Parsed(u) => AllParsed(us + [u])
        case UnknownAction => FirstBad(CannotParse(|raws| - 1, last.action, true))
        case Malformed => FirstBad(CannotParse(|raws| - 1, last.action, false))
  }

  /** `Apply`: a parse error leaves the metadata alone, a handler error what the updates before it did. */
  function ApplyRequest(m: Metadata, raws: seq<RawUpdate>): Outcome {
    match ParseAll(raws)
    case FirstBad(f) => Outcome(m, Some(f))
    case AllParsed(us) => Run(m, Sorted(us))
  }

  /** Parsing keeps the updates in place, and reports the first one that does not parse. */
  lemma {:induction false} ParseAllSpec(raws: seq<RawUpdate>)
    ensures ParseAll(raws).AllParsed? <==> forall i :: 0 <= i < |raws| ==> ParseUpdate(raws[i]).Parsed?
    ensures ParseAll(raws).AllParsed? ==>
              |ParseAll(raws).us| == |raws| &&
              forall i :: 0 <= i < |raws| ==> ParseUpdate(raws[i]) == Parsed(ParseAll(raws).us[i])
    ensures ParseAll(raws).FirstBad? ==>
              var f := ParseAll(raws).failure;
              f.CannotParse? && f.index < |raws| && !ParseUpdate(raws[f.index]).Parsed? &&
              f.action == raws[f.index].action && (f.unknown <==> raws[f.index].action.OtherAction?) &&
              forall i :: 0 <= i < f.index ==> ParseUpdate(raws[i]).Parsed?
  {
    hide ParseUpdate;
    if raws != [] {
      var init := raws[..|raws| - 1];
      ParseAllSpec(init);
      assert forall i :: 0 <= i < |init| ==> raws[i] == init[i];
    }
  }

  lemma {:induction false} RunConcat(m: Metadata, us: seq<Update>, vs: seq<Update>)
    ensures Run(m, us + vs) ==
            if Run(m, us).failure.Some? then Run(m, us) else Run(Run(m, us).meta, vs)
    decreases |us|
  {
    hide ApplyUpdate;
    if us == [] {
      assert us + vs == vs;
    } else {
      assert (us + vs)[1..] == us[1..] + vs;
      var s := ApplyUpdate(m, us[0]);
      if s.error.None? { RunConcat(s.state, us[1..], vs); }
    }
  }

  lemma RunSingle(m: Metadata, u: Update)
    ensures var s := ApplyUpdate(m, u);
            Run(m, [u]) == Outcome(s.state, if s.error.Some? then Some(Rejected(ActionOf(u), s.error.value)) else None)
  {
    hide ApplyUpdate;
    assert [u][1..] == [];
  }

  lemma RunPair(m: Metadata, a: Update, b: Update)
    ensures var s := ApplyUpdate(m, a);
            && (s.error.Some? ==> Run(m, [a, b]) == Outcome(s.state, Some(Rejected(ActionOf(a), s.error.value))))
            && (s.error.None? ==> Run(m, [a, b]) == Run(s.state, [b]))
  {
    hide ApplyUpdate;
    assert [a, b][1..] == [b];
  }
}
