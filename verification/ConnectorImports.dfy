/** Resuming a connector import whose file never reached the sandbox. */
module ConnectorImports {
  import opened Options
  import opened Json
  import opened CanonicalJson

  /** A recorded tool step; `tool` is the recorded tool name, or the one its type carries. */
  datatype Step = Step(id: string, sequence: int, completed: bool, tool: string, arguments: Json, output: Json)

  /** `record(value) ?? {}`. */
  function RecordOrEmpty(value: Json): Json {
    if value.Obj? then value else Obj([])
  }

  /** `record(value)?.[key]`. */
  function Property(value: Json, key: string): Json {
    if value.Obj? then Lookup(value.fields, key).GetOr(Null) else Null
  }

  /** `stringValue(value)` is defined. */
  predicate HasText(value: Json) {
    value.Str? && !IsBlank(value.s)
  }

  /** `connectorArtifact(details)` is not null. */
  predicate HasArtifact(details: Json) {
    var artifact := Property(Property(details, "structuredContent"), "artifact");
    HasText(Property(artifact, "fileId")) && HasText(Property(artifact, "name")) && HasText(Property(artifact, "mediaType"))
  }

  function ArgumentsKey(less: KeyOrder, step: Step): string {
    Print(Canonicalize(less, RecordOrEmpty(step.arguments)))
  }

  predicate IsEarlierCall(less: KeyOrder, candidate: Step, step: Step, toolName: string) {
    && candidate.id != step.id && candidate.sequence < step.sequence && candidate.completed
    && candidate.tool == toolName
    && ArgumentsKey(less, candidate) == ArgumentsKey(less, step)
  }

  /** The last of the filtered, sequence-sorted steps. */
  function Previous(less: KeyOrder, steps: seq<Step>, step: Step, toolName: string): (r: Option<Step>)
    decreases |steps|
  {
    if steps == [] then None
    else
      var last := steps[|steps| - 1];
      var before := Previous(less, steps[..|steps| - 1], step, toolName);
      if IsEarlierCall(less, last, step, toolName) && (before.None? || before.value.sequence <= last.sequence)
      then Some(last)
      else before
  }

  predicate AwaitsStaging(output: Json) {
    output.Obj? && Property(output, "stagingStatus") in {Str("pending_verification"), Str("failed")}
  }

  function ResumableConnectorImport(less: KeyOrder, steps: seq<Step>, step: Step, toolName: string): Option<Step> {
    match Previous(less, steps, step, toolName)
    case None => None
    case Some(previous) =>
      if AwaitsStaging(previous.output) && HasArtifact(Property(previous.output, "details")) then Some(previous) else None
  }

  /** The same call, read off the values instead of their texts. */
  ghost predicate SameCall(candidate: Step, step: Step, toolName: string) {
    && candidate.id != step.id && candidate.sequence < step.sequence && candidate.completed
    && candidate.tool == toolName
    && EqualUpToKeyOrder(if candidate.arguments.Obj? then candidate.arguments else Obj([]),
                         if step.arguments.Obj? then step.arguments else Obj([]))
  }

  /** What is found behind a chain of keys, each in the object under the key before. */
  function At(value: Json, path: seq<string>): Option<Json> {
    if path == [] then Some(value)
    else if !value.Obj? || Lookup(value.fields, path[0]).None? then None
    else At(Lookup(value.fields, path[0]).value, path[1..])
  }

  ghost predicate TextAt(value: Json, path: seq<string>) {
    At(value, path).Some? && At(value, path).value.Str?
    && exists i | 0 <= i < |At(value, path).value.s| :: !IsSpace(At(value, path).value.s[i])
  }

  /** Its recorded output says that the file was not staged, and which file it was. */
  ghost predicate LeftUnstaged(output: Json) {
    && (At(output, ["stagingStatus"]) == Some(Str("pending_verification")) || At(output, ["stagingStatus"]) == Some(Str("failed")))
    && TextAt(output, ["details", "structuredContent", "artifact", "fileId"])
    && TextAt(output, ["details", "structuredContent", "artifact", "name"])
    && TextAt(output, ["details", "structuredContent", "artifact", "mediaType"])
  }

  lemma AtOne(value: Json, key: string)
    ensures At(value, [key]) == if value.Obj? then Lookup(value.fields, key) else None
  {}

  lemma TextBehind(value: Json, path: seq<string>)
    requires path != []
    ensures TextAt(value, path) <==> TextAt(Property(value, path[0]), path[1..])
  {}

  lemma TextAtFour(value: Json, a: string, b: string, c: string, d: string)
    ensures TextAt(value, [a, b, c, d]) <==> HasText(Property(Property(Property(Property(value, a), b), c), d))
  {
    assert [a, b, c, d][1..] == [b, c, d] && [b, c, d][1..] == [c, d] && [c, d][1..] == [d] && [d][1..] == [];
    TextBehind(value, [a, b, c, d]);
    TextBehind(Property(value, a), [b, c, d]);
    TextBehind(Property(Property(value, a), b), [c, d]);
    TextBehind(Property(Property(Property(value, a), b), c), [d]);
  }

  lemma LeftUnstagedIff(output: Json)
    ensures LeftUnstaged(output) <==> AwaitsStaging(output) && HasArtifact(Property(output, "details"))
  {
    AtOne(output, "stagingStatus");
    TextAtFour(output, "details", "structuredContent", "artifact", "fileId");
    TextAtFour(output, "details", "structuredContent", "artifact", "name");
    TextAtFour(output, "details", "structuredContent", "artifact", "mediaType");
  }

  lemma EarlierCallIff(less: KeyOrder, candidate: Step, step: Step, toolName: string)
    requires StrictTotal(less) && WellFormed(candidate.arguments) && WellFormed(step.arguments)
    ensures IsEarlierCall(less, candidate, step, toolName) <==> SameCall(candidate, step, toolName)
  {
    RebuiltTextDecidesEquality(less, RecordOrEmpty(candidate.arguments), RecordOrEmpty(step.arguments));
  }

  lemma {:induction false} PreviousIsLatest(less: KeyOrder, steps: seq<Step>, step: Step, toolName: string)
    requires StrictTotal(less) && WellFormed(step.arguments)
    requires forall i | 0 <= i < |steps| :: WellFormed(steps[i].arguments)
    ensures var r := Previous(less, steps, step, toolName);
            && (r.Some? <==> exists i :: 0 <= i < |steps| && SameCall(steps[i], step, toolName))
            && (r.Some? ==> r.value in steps && SameCall(r.value, step, toolName)
                            && forall i | 0 <= i < |steps| && SameCall(steps[i], step, toolName) :: steps[i].sequence <= r.value.sequence)
    decreases |steps|
  {
    if steps != [] {
      var n := |steps| - 1;
      PreviousIsLatest(less, steps[..n], step, toolName);
      EarlierCallIff(less, steps[n], step, toolName);
      assert steps == steps[..n] + [steps[n]];
    }
  }

  /**
   * An import is resumed exactly when the latest earlier completed call of the
   * same tool, with arguments equal up to key order, left a file unstaged.
   */
  lemma ResumesExactly(less: KeyOrder, steps: seq<Step>, step: Step, toolName: string, p: Step)
    requires StrictTotal(less) && WellFormed(step.arguments)
    requires forall i | 0 <= i < |steps| :: WellFormed(steps[i].arguments)
    requires forall i, j | 0 <= i < j < |steps| :: steps[i].sequence != steps[j].sequence
    ensures ResumableConnectorImport(less, steps, step, toolName) == Some(p) <==>
              && p in steps && SameCall(p, step, toolName)
              && (forall i | 0 <= i < |steps| && SameCall(steps[i], step, toolName) :: steps[i].sequence <= p.sequence)
              && LeftUnstaged(p.output)
  {
    LeftUnstagedIff(p.output);
    PreviousIsLatest(less, steps, step, toolName);
    if p in steps && SameCall(p, step, toolName) && forall i | 0 <= i < |steps| && SameCall(steps[i], step, toolName) :: steps[i].sequence <= p.sequence {
      OneLatest(steps, step, toolName, p, Previous(less, steps, step, toolName).value);
    }
  }

  lemma OneLatest(steps: seq<Step>, step: Step, toolName: string, p: Step, q: Step)
    requires forall i, j | 0 <= i < j < |steps| :: steps[i].sequence != steps[j].sequence
    requires p in steps && q in steps && SameCall(p, step, toolName) && SameCall(q, step, toolName)
    requires forall i | 0 <= i < |steps| && SameCall(steps[i], step, toolName) :: steps[i].sequence <= p.sequence
    requires forall i | 0 <= i < |steps| && SameCall(steps[i], step, toolName) :: steps[i].sequence <= q.sequence
    ensures p == q
  {
    var i :| 0 <= i < |steps| && steps[i] == p;
    var j :| 0 <= j < |steps| && steps[j] == q;
    assert steps[i].sequence == steps[j].sequence;
  }
}
