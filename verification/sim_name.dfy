/**
 * The simulation name `SF{sf}_TP{tp}_N{nodes}_GW1` (app/simulation_config.py)
 * and the two readings of it that the result processors make.
 */
module SimName {
  import opened Wrappers
  import opened Text

  /** `f"SF{sf}_TP{tp}_N{nodes}_GW1"`: every simulation is run with one gateway. */
  function SimName(sf: int, tp: int, nodes: int): string {
    JoinOn(NameFields(sf, tp, nodes), '_')
  }

  function NameFields(sf: int, tp: int, nodes: int): seq<string> {
    ["SF" + IntToString(sf), "TP" + IntToString(tp), "N" + IntToString(nodes), "GW1"]
  }

  /** The node count a result processor assumes when the name does not carry one. */
  const DefaultNodes: int := 10

  /** `int(sim_name.split("_")[2].replace("N", ""))`, or `DefaultNodes` when that raises. */
  function NodeCount(name: string): int {
    var parts := SplitOn(name, '_');
    if |parts| < 3 then DefaultNodes
    else
      match ParseInt(RemoveAll(parts[2], "N"))
      case Some(n) => n
      case None => DefaultNodes
  }

  /** `int(sim_name.split("_")[-1].replace("GW", ""))`, whose `ValueError` is not caught. */
  function GatewayCount(name: string): Result<int> {
    var parts := SplitOn(name, '_');
    match ParseInt(RemoveAll(parts[|parts| - 1], "GW"))
    case Some(g) => Success(g)
    case None => Failure(ValueError("invalid literal for int() with base 10"))
  }

  lemma IntToStringHasNo(i: int, c: char)
    requires c != '-' && !IsDigit(c)
    ensures c !in IntToString(i)
  {
  }

  /** The four `_`-separated fields of a name. */
  lemma SimNameFields(sf: int, tp: int, nodes: int)
    ensures SplitOn(SimName(sf, tp, nodes), '_') == NameFields(sf, tp, nodes)
  {
    IntToStringHasNo(sf, '_');
    IntToStringHasNo(tp, '_');
    IntToStringHasNo(nodes, '_');
    SplitOnJoin(NameFields(sf, tp, nodes), '_');
  }

  /** The node count read back from a name is the one it was built from. */
  lemma NodeCountOfName(sf: int, tp: int, nodes: int)
    ensures NodeCount(SimName(sf, tp, nodes)) == nodes
  {
    SimNameFields(sf, tp, nodes);
    var digits := IntToString(nodes);
    var field := "N" + digits;
    assert field[..1] == "N" && field[1..] == digits;
    IntToStringHasNo(nodes, 'N');
    RemoveAllAbsent(digits, "N");
    ParseIntToString(nodes);
  }

  /** The gateway count read back from any name is 1. */
  lemma GatewayCountOfName(sf: int, tp: int, nodes: int)
    ensures GatewayCount(SimName(sf, tp, nodes)) == Success(1)
  {
    SimNameFields(sf, tp, nodes);
    assert RemoveAll("GW1", "GW") == "1";
    ParseIntToString(1);
    assert IntToString(1) == "1";
  }

  /** A name without two underscores falls back to the default node count. */
  lemma NodeCountFallback(name: string)
    requires |SplitOn(name, '_')| < 3
    ensures NodeCount(name) == DefaultNodes
  {
  }
}
