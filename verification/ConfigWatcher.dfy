/**
  The watcher of agent.yaml compares each snapshot with the one before it. The
  lemmas show this agrees with comparing every snapshot with the file the program
  booted on.
 */
module ConfigWatcher {
  import opened Wrappers

  type Yaml = string

  /** A parsed configuration: the model, and everything else as one comparable value. */
  datatype AgentConfig = AgentConfig(model: Option<string>, rest: nat)

  /** The YAML reader, outside the model. */
  type Parser = Yaml -> Option<AgentConfig>

  datatype ChangeKind = NoChange | HotReloadable(newModel: Option<string>) | RestartRequired

  function DiffClassify(parse: Parser, old_: Yaml, new_: Yaml): ChangeKind {
    if old_ == new_ then NoChange
    else
      match (parse(old_), parse(new_))
      case (Some(o), Some(n)) =>
        if o.(model := None) == n.(model := None) then HotReloadable(n.model) else RestartRequired
      case (_, _) => RestartRequired
  }

  /** What the watcher's channel delivers. */
  datatype Notice = WatchError | Unrelated | CannotRead | Snapshot(text: Yaml)

  /** The simple design: is this snapshot acceptable beside the boot file? */
  predicate Acceptable(parse: Parser, boot: Yaml, text: Yaml) {
    || text == boot
    || (parse(boot).Some? && parse(text).Some? && parse(text).value.rest == parse(boot).value.rest)
  }

  predicate Harmless(parse: Parser, boot: Yaml, n: Notice) {
    match n
    case WatchError => true
    case Unrelated => true
    case CannotRead => false
    case Snapshot(text) => Acceptable(parse, boot, text)
  }

  /** The last snapshot among the first `n` notices, or the boot file. */
  function LastText(boot: Yaml, notices: seq<Notice>): Yaml {
    if notices == [] then boot
    else if notices[|notices| - 1].Snapshot? then notices[|notices| - 1].text
    else LastText(boot, notices[..|notices| - 1])
  }

  /** Comparing with the previous acceptable snapshot asks the same as comparing with the boot file. */
  lemma StepwiseDiffRefinesBootDiff(parse: Parser, boot: Yaml, last: Yaml, text: Yaml)
    requires Acceptable(parse, boot, last)
    ensures DiffClassify(parse, last, text).RestartRequired? <==> !Acceptable(parse, boot, text)
    ensures DiffClassify(parse, last, text).HotReloadable? ==>
              parse(text).Some? && DiffClassify(parse, last, text).newModel == parse(text).value.model
  {
  }

  class Watcher {
    const parse: Parser
    var lastYaml: Yaml
    var modelCell: Option<string>
    var configChanged: bool
    var cancelled: bool

    constructor (parse: Parser, boot: Yaml, model: Option<string>)
      ensures this.parse == parse && lastYaml == boot && modelCell == model && !configChanged && !cancelled
    {
      this.parse := parse;
      lastYaml, modelCell, configChanged, cancelled := boot, model, false, false;
    }

    /**
      The event loop over the notices the channel delivers. It asks for a restart
      at the first notice that is not harmless beside the boot file, and stops
      there; before that the model cell follows the last snapshot.
     */
    method Watch(notices: seq<Notice>) returns (handled: nat)
      requires !configChanged && !cancelled
      requires parse(lastYaml).Some? ==> modelCell == parse(lastYaml).value.model
      modifies this
      ensures handled <= |notices|
      ensures forall i :: 0 <= i < handled ==> Harmless(parse, old(lastYaml), notices[i])
      ensures configChanged == cancelled
      ensures cancelled <==> handled < |notices|
      ensures cancelled ==> !Harmless(parse, old(lastYaml), notices[handled])
      ensures lastYaml == LastText(old(lastYaml), notices[..handled])
      ensures if parse(lastYaml).Some? then modelCell == parse(lastYaml).value.model else modelCell == old(modelCell)
    {
      ghost var boot := lastYaml;
      handled := 0;
      while handled < |notices|
        invariant handled <= |notices| && !configChanged && !cancelled
        invariant forall i :: 0 <= i < handled ==> Harmless(parse, boot, notices[i])
        invariant Acceptable(parse, boot, lastYaml)
        invariant lastYaml == LastText(boot, notices[..handled])
        invariant if parse(lastYaml).Some? then modelCell == parse(lastYaml).value.model else modelCell == old(modelCell)
      {
        var n := notices[handled];
        assert notices[..handled + 1][..handled] == notices[..handled];
        if n.CannotRead? {
          configChanged, cancelled := true, true;
          return;
        }
        if n.Snapshot? {
          StepwiseDiffRefinesBootDiff(parse, boot, lastYaml, n.text);
          match DiffClassify(parse, lastYaml, n.text) {
            case NoChange =>
              lastYaml := n.text;
            case HotReloadable(newModel) =>
              modelCell := newModel;
              lastYaml := n.text;
            case RestartRequired =>
              configChanged, cancelled := true, true;
              return;
          }
        }
        handled := handled + 1;
      }
    }
  }
}
