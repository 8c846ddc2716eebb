/** The `wakeonlan-cli` tool's machine collection, the earlier form of the
    `waker-cli` one: machines keep their address as the text the user typed,
    and waking a machine first checks that this text parses. Prompts, the
    configuration file and console output are outside the model. */
module WakeOnLanCli {
  import opened MacTypes
  import opened AliasResolver

  /** A stored alias: a display name and the address as typed. */
  datatype Machine = Machine(name: string, mac: string)

  /** The similarity of every stored name to `query`, in stored order. */
  function Scores(machines: seq<Machine>, query: string, similarity: Similarity): (r: seq<real>)
    ensures |r| == |machines|
  {
    seq(|machines|, i requires 0 <= i < |machines| => similarity(machines[i].name, query))
  }

  function MachineAt(machines: seq<Machine>, index: Option<nat>): (m: Option<Machine>) {
    if index.Some? && index.value < |machines| then Some(machines[index.value]) else None
  }

  /** `Data`: the configuration's ordered list of machines. */
  class Data {
    var machines: seq<Machine>

    constructor (machines: seq<Machine>)
      ensures this.machines == machines
    {
      this.machines := machines;
    }

    /** `find_best_machine`: the same scan as in `waker-cli`, over machines
        whose address is kept as text. */
    method FindBestMachine(name: string, similarity: Similarity, close: UpperBoundTest)
      returns (best: Option<Machine>)
      ensures best == MachineAt(machines, BestIndex(Scores(machines, name, similarity), close))
      ensures |machines| == 0 ==> best == None
      ensures best.Some? ==> best.value in machines && similarity(best.value.name, name) > 0.0
    {
      ghost var scores := Scores(machines, name, similarity);
      var bestScore: real := 0.0;
      var bestMatch: Option<Machine> := None;
      ghost var bestIndex: Option<nat> := None;
      var i := 0;
      while i < |machines|
        invariant i <= |machines|
        invariant bestIndex.Some? ==> bestIndex.value < i
        invariant bestMatch == MachineAt(machines, bestIndex)
        invariant ScanFrom(scores, close, i, bestScore, bestIndex) == BestIndex(scores, close)
      {
        var machine := machines[i];
        var score := similarity(machine.name, name);
        if score > bestScore {
          bestScore := score;
          bestMatch := Some(machine);
          bestIndex := Some(i);
        }
        if close(score) {
          break;
        }
        i := i + 1;
      }
      best := bestMatch;
    }

    /** The duplicate test of `prompt_machine`: some stored name scores
        strictly above 0.9 against `name`. */
    function IsDuplicateName(name: string, similarity: Similarity): (r: bool)
      reads this
      ensures r <==> exists i :: 0 <= i < |machines| && similarity(machines[i].name, name) > DUPLICATE_THRESHOLD
    {
      var scores := Scores(machines, name, similarity);
      assert forall i :: 0 <= i < |machines| ==> scores[i] == similarity(machines[i].name, name);
      AnyExceeds(scores, DUPLICATE_THRESHOLD)
    }

    /** `prompt_machine` once the name and address have been typed: no machine
        exactly when the name duplicates a stored one, and otherwise the new
        machine with the address text as typed. */
    function PromptMachine(name: string, mac: string, similarity: Similarity): (r: Option<Machine>)
      reads this
      ensures r.None? <==> exists i :: 0 <= i < |machines| && similarity(machines[i].name, name) > DUPLICATE_THRESHOLD
      ensures r.Some? ==> r.value.name == name && r.value.mac == mac
    {
      if IsDuplicateName(name, similarity) then None else Some(Machine(name, mac))
    }

    /** `add_machine`: a machine the prompt produced and the user confirmed is
        pushed onto the end; otherwise nothing changes. */
    method AddMachine(name: string, mac: string, confirmed: bool, similarity: Similarity)
      modifies this
      ensures machines ==
        match old(PromptMachine(name, mac, similarity))
        case Some(machine) => if confirmed then old(machines) + [machine] else old(machines)
        case None => old(machines)
    {
      var prompted := PromptMachine(name, mac, similarity);
      if prompted.Some? && confirmed {
        machines := machines + [prompted.value];
      }
    }
  }

  /** The guard of `wake_machine`: waking fails exactly when the stored
      address text does not parse, with the parser's error. */
  function WakeMachine(machine: Machine, parse: MacParser): (r: Result<(), MacAddressError>)
    ensures r.Err? <==> parse(machine.mac).Err?
    ensures r.Err? ==> r.error == parse(machine.mac).error
  {
    var _ :- parse(machine.mac);
    Ok(())
  }
}
