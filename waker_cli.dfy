/** The `waker-cli` tool's machine collection: resolving a typed alias to a
    stored machine, refusing a new name too similar to a stored one, and
    appending a confirmed machine. Prompts, the configuration file and console
    output are outside the model; the answers a user types are parameters. */
module WakerCli {
  import opened MacTypes
  import opened AliasResolver

  /** A stored alias: a display name and a parsed hardware address. */
  datatype Machine = Machine(name: string, mac: MacBytes)

  /** The similarity of every stored name to `query`, in stored order. */
  function Scores(machines: seq<Machine>, query: string, similarity: Similarity): (r: seq<real>)
    ensures |r| == |machines|
  {
    seq(|machines|, i requires 0 <= i < |machines| => similarity(machines[i].name, query))
  }

  function MachineAt(machines: seq<Machine>, index: Option<nat>): (m: Option<Machine>) {
    if index.Some? && index.value < |machines| then Some(machines[index.value]) else None
  }

  /** `Data`: the configuration's ordered list of machines. */
  class Data {
    var machines: seq<Machine>

    constructor (machines: seq<Machine>)
      ensures this.machines == machines
    {
      this.machines := machines;
    }

    /** `find_best_machine`: scans the machines in order and returns the one
        chosen by the resolver; the list itself is left untouched. */
    method FindBestMachine(name: string, similarity: Similarity, close: UpperBoundTest)
      returns (best: Option<Machine>)
      ensures best == MachineAt(machines, BestIndex(Scores(machines, name, similarity), close))
      ensures |machines| == 0 ==> best == None
      ensures best.Some? ==> best.value in machines && similarity(best.value.name, name) > 0.0
    {
      ghost var scores := Scores(machines, name, similarity);
      var bestScore: real := 0.0;
      var bestMatch: Option<Machine> := None;
      ghost var bestIndex: Option<nat> := None;
      for i := 0 to |machines|
        invariant bestIndex.Some? ==> bestIndex.value < i
        invariant bestMatch == MachineAt(machines, bestIndex)
        invariant ScanFrom(scores, close, i, bestScore, bestIndex) == BestIndex(scores, close)
      {
        var machine := machines[i];
        var score := similarity(machine.name, name);
        if score > bestScore {
          bestScore := score;
          bestMatch := Some(machine);
          bestIndex := Some(i);
        }
        if close(score) {
          break;
        }
      }
      best := bestMatch;
    }

    /** The duplicate test of `prompt_machine`: some stored name scores
        strictly above 0.9 against `name`. */
    function IsDuplicateName(name: string, similarity: Similarity): (r: bool)
      reads this
      ensures r <==> exists i :: 0 <= i < |machines| && similarity(machines[i].name, name) > DUPLICATE_THRESHOLD
    {
      var scores := Scores(machines, name, similarity);
      assert forall i :: 0 <= i < |machines| ==> scores[i] == similarity(machines[i].name, name);
      AnyExceeds(scores, DUPLICATE_THRESHOLD)
    }

    /** `prompt_machine` once the name and address have been typed: no machine
        when the name duplicates a stored one, an error when the address does
        not parse, and otherwise the new machine. */
    function PromptMachine(name: string, macText: string, similarity: Similarity, parse: MacParser)
      : (r: Result<Option<Machine>, MacAddressError>)
      reads this
      ensures r == Ok(None) <==> exists i :: 0 <= i < |machines| && similarity(machines[i].name, name) > DUPLICATE_THRESHOLD
      ensures r.Err? <==> !IsDuplicateName(name, similarity) && parse(macText).Err?
      ensures r.Err? ==> r.error == parse(macText).error
      ensures r.Ok? && r.value.Some? ==> r.value.value == Machine(name, parse(macText).value)
    {
      if IsDuplicateName(name, similarity) then Ok(None)
      else
        var mac :- parse(macText);
        Ok(Some(Machine(name, mac)))
    }

    /** `add_machine`: prompts for a machine and, when the user confirms,
        appends it at the end; existing entries keep their order. A prompt
        error is passed on and leaves the list unchanged. */
    method AddMachine(name: string, macText: string, confirmed: bool, similarity: Similarity, parse: MacParser)
      returns (r: Result<(), MacAddressError>)
      modifies this
      ensures r.Err? <==> old(PromptMachine(name, macText, similarity, parse)).Err?
      ensures r.Err? ==> r.error == old(PromptMachine(name, macText, similarity, parse)).error
      ensures machines ==
        match old(PromptMachine(name, macText, similarity, parse))
        case Ok(Some(machine)) => if confirmed then old(machines) + [machine] else old(machines)
        case _ => old(machines)
    {
      var prompted := PromptMachine(name, macText, similarity, parse);
      match prompted {
        case Err(e) =>
          return Err(e);
        case Ok(None) =>
          return Ok(());
        case Ok(Some(machine)) =>
          if confirmed {
            machines := machines + [machine];
          }
          return Ok(());
      }
    }
  }
}
