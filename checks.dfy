/**
 * The provider's check list and the name -> id dictionary that the
 * reconciler builds from it before looking at any host.
 */
module Checks {

  import opened Options

  /**
   * One entry of the provider's check list, already decoded from JSON.
   * `isPaused` is true exactly when the entry's `isPaused` field is the JSON
   * boolean `true`; a missing field or any other value counts as not paused.
   */
  datatype Check = Check(name: string, id: string, isPaused: bool)

  /** The name -> id dictionary; "" is the sentinel for a paused check. */
  type CheckMap = map<string, string>

  /** What the dictionary stores for one check: its id, or "" when paused. */
  function StoredId(c: Check): string
  {
    if c.isPaused then "" else c.id
  }

  /** The dictionary after folding the whole list, left to right. */
  function BuildMap(checks: seq<Check>): CheckMap
  {
    if checks == [] then map[]
    else
      var c := checks[|checks| - 1];
      BuildMap(checks[..|checks| - 1])[c.name := StoredId(c)]
  }

  /** The names that occur in the list. */
  function Names(checks: seq<Check>): set<string>
  {
    set c | c in checks :: c.name
  }

  function Lookup(m: CheckMap, name: string): Option<string>
  {
    if name in m then Some(m[name]) else None
  }

  /**
   * The position of the last check called `name`, or -1 when there is none:
   * an independent account of which entry decides a name's value.
   */
  function LastIndex(checks: seq<Check>, name: string): (i: int)
    ensures -1 <= i < |checks|
    ensures i >= 0 ==> checks[i].name == name
    ensures forall j :: i < j < |checks| ==> checks[j].name != name
  {
    if checks == [] then -1
    else if checks[|checks| - 1].name == name then |checks| - 1
    else LastIndex(checks[..|checks| - 1], name)
  }

  /**
   * Loop over the check list that fills the dictionary in place, one entry
   * per check, so that a later check with the same name overwrites an
   * earlier one.
   */
  method BuildCheckMap(checks: seq<Check>) returns (m: CheckMap)
    ensures m == BuildMap(checks)
    ensures m.Keys == Names(checks)
  {
    m := map[];
    for i := 0 to |checks|
      invariant m == BuildMap(checks[..i])
    {
      var c := checks[i];
      assert checks[..i + 1][..i] == checks[..i];
      if !c.isPaused {
        m := m[c.name := c.id];
      } else {
        m := m[c.name := ""];
      }
    }
    assert checks[..|checks|] == checks;
    BuildMapKeys(checks);
  }

  /** Every name in the list is a key, and nothing else is. */
  lemma {:induction false} BuildMapKeys(checks: seq<Check>)
    ensures BuildMap(checks).Keys == Names(checks)
  {
    if checks != [] {
      var front := checks[..|checks| - 1];
      BuildMapKeys(front);
      assert checks == front + [checks[|checks| - 1]];
      assert Names(checks) == Names(front) + {checks[|checks| - 1].name};
    }
  }

  /**
   * Looking a name up in the built dictionary gives nothing when no check has
   * that name, and otherwise what the LAST check with that name stores.
   */
  lemma {:induction false} BuildMapLookup(checks: seq<Check>, name: string)
    ensures Lookup(BuildMap(checks), name) ==
              if LastIndex(checks, name) < 0 then None
              else Some(StoredId(checks[LastIndex(checks, name)]))
  {
    if checks != [] {
      BuildMapLookup(checks[..|checks| - 1], name);
    }
  }

  /** Last write wins: a check with no later namesake decides its name's value. */
  lemma BuildMapLastWins(checks: seq<Check>, i: int)
    requires 0 <= i < |checks|
    requires forall j :: i < j < |checks| ==> checks[j].name != checks[i].name
    ensures checks[i].name in BuildMap(checks)
    ensures BuildMap(checks)[checks[i].name] == (if checks[i].isPaused then "" else checks[i].id)
  {
    BuildMapLookup(checks, checks[i].name);
  }

  /** An active check stores its id; a paused one stores the "" sentinel. */
  lemma BuildMapSentinel(checks: seq<Check>, name: string)
    requires name in Names(checks)
    ensures name in BuildMap(checks)
    ensures var c := checks[LastIndex(checks, name)];
            BuildMap(checks)[name] == "" <==> (c.isPaused || c.id == "")
  {
    BuildMapLookup(checks, name);
  }
}
