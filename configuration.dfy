/**
 Backend selection: a fixed table of adapter names, a validated setter for the
 configured name and a memoised lookup of the adapter class.
 */
module Configurations {
  import opened Outcomes

  datatype Kind = Redis | Test

  /** The table's keys, in the table's order. */
  const AdapterNames: seq<string> := ["redis", "test"]

  function AdapterClasses(): map<string, Kind> {
    map["redis" := Redis, "test" := Test]
  }

  function LookupClass(name: string): (r: Option<Kind>)
    ensures r.Some? <==> name in AdapterNames
    ensures name == "redis" ==> r == Some(Redis)
    ensures name == "test" ==> r == Some(Test)
  {
    if name in AdapterClasses() then Some(AdapterClasses()[name]) else None
  }

  lemma ValidNamesAreExactlyRedisAndTest(name: string)
    ensures LookupClass(name).Some? <==> name == "redis" || name == "test"
  {
  }

  /** The names joined with ", ", as `keys.join(", ")` does. */
  function Join(names: seq<string>): string {
    if |names| == 0 then ""
    else if |names| == 1 then names[0]
    else names[0] + ", " + Join(names[1..])
  }

  /**
   The rejection message as written: a `%W[...]` literal, which splits the text
   into an ARRAY of words (interpolations are not split), not one sentence.
   */
  function MissingAdapterWords(name: string): seq<string> {
    ["Missing", "adapter", "for", name + ",", "valid", "adapters", "are", Join(AdapterNames)]
  }

  /** The rejection message as intended: one sentence naming the bad adapter and every valid one. */
  function MissingAdapterMessage(name: string): (msg: string)
    ensures |msg| == 20 + |name| + 21 + |Join(AdapterNames)|
    ensures msg[20..20 + |name|] == name
    ensures msg[|msg| - |Join(AdapterNames)|..] == Join(AdapterNames)
  {
    "Missing adapter for " + name + ", valid adapters are " + Join(AdapterNames)
  }

  lemma JoinOfTable()
    ensures Join(AdapterNames) == "redis, test"
  {
    assert AdapterNames[1..] == ["test"];
  }

  /** The words of the as-written message are not the intended message: it is eight separate strings. */
  lemma MissingAdapterWordsIsNotASentence(name: string)
    ensures |MissingAdapterWords(name)| == 8
    ensures MissingAdapterWords(name)[3] == name + ","
    ensures MissingAdapterWords(name)[7] == "redis, test"
    ensures MissingAdapterWords(name) != [MissingAdapterMessage(name)]
  {
    JoinOfTable();
  }

  /** `@adapter_class ||= ADAPTER_CLASSES[adapter.to_sym]`: the memo wins; otherwise look the name up. */
  function Resolve(adapter: Option<string>, memo: Option<Kind>): (r: Result<Kind>)
    ensures memo.Some? ==> r == Ok(memo.value)
    ensures memo.None? && adapter.None? ==> r == Err(NoAdapterSet)
    ensures memo.None? && adapter.Some? ==>
              (r.Ok? <==> adapter.value in AdapterNames) &&
              (r.Ok? ==> r.value == AdapterClasses()[adapter.value])
  {
    match memo
    case Some(k) => Ok(k)
    case None =>
      match adapter
      case None => Err(NoAdapterSet)
      case Some(name) =>
        match LookupClass(name)
        case Some(k) => Ok(k)
        case None => Err(NoAdapterClass(name))
  }

  /** The memo after one lookup: set by a successful lookup, left nil by a failed one. */
  function NextMemo(adapter: Option<string>, memo: Option<Kind>): Option<Kind> {
    match Resolve(adapter, memo)
    case Ok(k) => Some(k)
    case Err(_) => memo
  }

  /** Once a lookup has succeeded, reassigning the adapter name does not change the class. */
  lemma MemoSurvivesReassignment(adapter: Option<string>, memo: Option<Kind>, later: Option<string>)
    requires Resolve(adapter, memo).Ok?
    ensures Resolve(later, NextMemo(adapter, memo)) == Resolve(adapter, memo)
  {
  }

  class Configuration {
    /** The configured adapter name (`config_accessor :adapter`). */
    var adapter: Option<string>
    /** The memoised adapter class. */
    var adapterClass: Option<Kind>

    constructor (adapter: Option<string>)
      ensures this.adapter == adapter && adapterClass == None
    {
      this.adapter := adapter;
      adapterClass := None;
    }

    /** The validated setter: a name is stored only when it is a key of the table. */
    method SetAdapter(name: string) returns (r: Result<()>)
      modifies this`adapter
      ensures r.Ok? <==> name in AdapterNames
      ensures r.Ok? ==> adapter == Some(name)
      ensures r.Err? ==> adapter == old(adapter) && r.error == MissingAdapter(MissingAdapterMessage(name))
    {
      if name in AdapterClasses() {
        adapter := Some(name);
        r := Ok(());
      } else {
        r := Err(MissingAdapter(MissingAdapterMessage(name)));
      }
    }

    method AdapterClass() returns (r: Result<Kind>)
      modifies this`adapterClass
      ensures r == Resolve(old(adapter), old(adapterClass))
      ensures adapterClass == NextMemo(old(adapter), old(adapterClass))
    {
      if adapterClass.None? {
        match adapter
        case None =>
          return Err(NoAdapterSet);
        case Some(name) =>
          if name in AdapterClasses() {
            adapterClass := Some(AdapterClasses()[name]);
          } else {
            return Err(NoAdapterClass(name));
          }
      }
      r := Ok(adapterClass.value);
    }
  }
}
