/** The text pipeline of 02-multi-nodes.js: three nodes in a row, each
    rewriting `text` and logging one step label, over a state whose `original`
    and `text` fields replace and whose `steps` field appends. */
module MultiNodes {
  import opened Wrappers
  import opened Reducers
  import opened Text

  datatype PipelineState = PipelineState(original: string, text: string, steps: seq<string>)

  /** A node's partial update: `None` for a field the node does not return. */
  datatype PipelineUpdate = PipelineUpdate(original: Option<string>, text: Option<string>, steps: Option<seq<string>>)

  /** The annotations' defaults. */
  const Initial := PipelineState("", "", [])

  const UpperLabel := "转大写"
  const PrefixLabel := "添加前缀"
  const SuffixLabel := "添加后缀"
  const Prefix := "【重要】"
  const Suffix := "！！！"

  /** Merge an update through each field's reducer. */
  function Merge(s: PipelineState, u: PipelineUpdate): PipelineState {
    PipelineState(MergeReplace(s.original, u.original), MergeReplace(s.text, u.text), MergeAppend(s.steps, u.steps))
  }

  datatype Node = ToUpperCase | AddPrefix | AddSuffix

  function ToUpperCaseNode(s: PipelineState): PipelineUpdate {
    PipelineUpdate(None, Some(ToUpper(s.text)), Some([UpperLabel]))
  }

  function AddPrefixNode(s: PipelineState): PipelineUpdate {
    PipelineUpdate(None, Some(Prefix + s.text), Some([PrefixLabel]))
  }

  function AddSuffixNode(s: PipelineState): PipelineUpdate {
    PipelineUpdate(None, Some(s.text + Suffix), Some([SuffixLabel]))
  }

  function Label(n: Node): string {
    match n
    case ToUpperCase => UpperLabel
    case AddPrefix => PrefixLabel
    case AddSuffix => SuffixLabel
  }

  /** What node `n` does to `text`. */
  function Rewrite(n: Node, text: string): string {
    match n
    case ToUpperCase => ToUpper(text)
    case AddPrefix => Prefix + text
    case AddSuffix => text + Suffix
  }

  function NodeUpdate(n: Node, s: PipelineState): PipelineUpdate {
    match n
    case ToUpperCase => ToUpperCaseNode(s)
    case AddPrefix => AddPrefixNode(s)
    case AddSuffix => AddSuffixNode(s)
  }

  /** Executing a node: run it, then merge its update. Every node returns a new
      `text` and exactly one step label, and never `original`, so a step
      leaves `original` alone and grows `steps` by its label. */
  function Execute(n: Node, s: PipelineState): (r: PipelineState)
    ensures r.original == s.original
    ensures r.text == Rewrite(n, s.text)
    ensures r.steps == s.steps + [Label(n)] && |r.steps| == |s.steps| + 1
  {
    Merge(s, NodeUpdate(n, s))
  }

  /** The nodes in the order the edges START → toUpperCase → addPrefix → addSuffix → END fix. */
  const Path := [ToUpperCase, AddPrefix, AddSuffix]

  function Labels(path: seq<Node>): (r: seq<string>)
    ensures |r| == |path|
  {
    if path == [] then [] else [Label(path[0])] + Labels(path[1..])
  }

  /** Run `path` node after node. */
  function RunPath(path: seq<Node>, s: PipelineState): PipelineState {
    if path == [] then s else RunPath(path[1..], Execute(path[0], s))
  }

  /** Running any sequence of these nodes keeps `original` and logs one label
      per node executed, in execution order. */
  lemma {:induction false} RunPathLog(path: seq<Node>, s: PipelineState)
    ensures RunPath(path, s).original == s.original
    ensures RunPath(path, s).steps == s.steps + Labels(path)
  {
    if path != [] {
      var s1 := Execute(path[0], s);
      RunPathLog(path[1..], s1);
      calc {
        RunPath(path, s).steps;
        RunPath(path[1..], s1).steps;
        s1.steps + Labels(path[1..]);
        s.steps + [Label(path[0])] + Labels(path[1..]);
        { assert Labels(path) == [Label(path[0])] + Labels(path[1..]); }
        s.steps + Labels(path);
      }
    }
  }

  /** `app.invoke(input)`: the input is merged into the defaults, then the path runs. */
  function Invoke(input: PipelineUpdate): PipelineState {
    RunPath(Path, Merge(Initial, input))
  }

  /** The end-to-end result: the upper-cased input text between the prefix and
      the suffix, the three labels in execution order after any input steps,
      and `original` as it was given. */
  lemma InvokeResult(input: PipelineUpdate)
    ensures Invoke(input).text == Prefix + ToUpper(input.text.GetOr("")) + Suffix
    ensures Invoke(input).steps == input.steps.GetOr([]) + [UpperLabel, PrefixLabel, SuffixLabel]
    ensures Invoke(input).original == input.original.GetOr("")
  {
    var s0 := Merge(Initial, input);
    RunPathLog(Path, s0);
    assert Labels(Path) == [UpperLabel, PrefixLabel, SuffixLabel];
    var s1 := Execute(ToUpperCase, s0);
    var s2 := Execute(AddPrefix, s1);
    var s3 := Execute(AddSuffix, s2);
    assert RunPath(Path, s0) == RunPath(Path[1..], s1) == RunPath(Path[2..], s2) == RunPath([], s3);
  }

  /** The script's own call, with `original` and `text` set and no steps. */
  lemma InvokeWithoutSteps(t: string)
    ensures Invoke(PipelineUpdate(Some(t), Some(t), None))
         == PipelineState(t, Prefix + ToUpper(t) + Suffix, [UpperLabel, PrefixLabel, SuffixLabel])
  {
    InvokeResult(PipelineUpdate(Some(t), Some(t), None));
  }
}
