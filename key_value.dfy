/**
 * The generic key-value tree that the realtime database stores and that every
 * `toDictionary` produces and every `fromDictionary` consumes (`[String: Any]`).
 * Numbers are integers: timestamps (`timeIntervalSince1970`) are opaque
 * integer instants, and a number satisfies both `as? Int` and `as? TimeInterval`.
 */
module KeyValue {
  import opened Wrappers

  datatype Value =
    | Str(s: string)
    | Num(n: int)
    | Bool(b: bool)
    | Map(entries: map<string, Value>)
    | List(items: seq<Value>)

  type Dict = map<string, Value>

  /** `dict[key] as? String` */
  function GetStr(d: Dict, key: string): Option<string>
  {
    if key in d && d[key].Str? then Some(d[key].s) else None
  }

  /** `dict[key] as? Int` and `dict[key] as? TimeInterval` */
  function GetNum(d: Dict, key: string): Option<int>
  {
    if key in d && d[key].Num? then Some(d[key].n) else None
  }

  /** `dict[key] as? Bool` */
  function GetBool(d: Dict, key: string): Option<bool>
  {
    if key in d && d[key].Bool? then Some(d[key].b) else None
  }

  /** `dict[key] as? [String: Any]` */
  function GetDict(d: Dict, key: string): Option<Dict>
  {
    if key in d && d[key].Map? then Some(d[key].entries) else None
  }

  predicate AllStr(items: seq<Value>) { forall i :: 0 <= i < |items| ==> items[i].Str? }
  predicate AllMap(items: seq<Value>) { forall i :: 0 <= i < |items| ==> items[i].Map? }

  /** `dict[key] as? [String]`: a list all of whose items are strings. */
  function GetStrList(d: Dict, key: string): Option<seq<string>>
  {
    if key in d && d[key].List? && AllStr(d[key].items)
    then Some(seq(|d[key].items|, i requires 0 <= i < |d[key].items| => d[key].items[i].s))
    else None
  }

  /** `dict[key] as? [[String: Any]]`: a list all of whose items are dictionaries. */
  function GetDictList(d: Dict, key: string): Option<seq<Dict>>
  {
    if key in d && d[key].List? && AllMap(d[key].items)
    then Some(seq(|d[key].items|, i requires 0 <= i < |d[key].items| => d[key].items[i].entries))
    else None
  }

  /** `dict[key] as? [String: [String: Any]]`: a dictionary all of whose values are dictionaries. */
  function GetDictOfDicts(d: Dict, key: string): Option<map<string, Dict>>
  {
    if key in d && d[key].Map? && (forall k :: k in d[key].entries ==> d[key].entries[k].Map?)
    then Some(map k | k in d[key].entries :: d[key].entries[k].entries)
    else None
  }

  /** `dict[key] as? [String: String]`: a dictionary all of whose values are strings. */
  function GetStrDict(d: Dict, key: string): Option<map<string, string>>
  {
    if key in d && d[key].Map? && (forall k :: k in d[key].entries ==> d[key].entries[k].Str?)
    then Some(map k | k in d[key].entries :: d[key].entries[k].s)
    else None
  }

  /** `strings` as a stored array. */
  function StrList(strings: seq<string>): (v: Value)
    ensures v.List? && |v.items| == |strings| && AllStr(v.items)
    ensures forall i :: 0 <= i < |strings| ==> v.items[i] == Str(strings[i])
  {
    List(seq(|strings|, i requires 0 <= i < |strings| => Str(strings[i])))
  }

  /** `dicts` as a stored array of dictionaries. */
  function DictList(dicts: seq<Dict>): (v: Value)
    ensures v.List? && |v.items| == |dicts| && AllMap(v.items)
    ensures forall i :: 0 <= i < |dicts| ==> v.items[i] == Map(dicts[i])
  {
    List(seq(|dicts|, i requires 0 <= i < |dicts| => Map(dicts[i])))
  }

  lemma DictListRoundTrip(d: Dict, key: string, dicts: seq<Dict>)
    requires key in d && d[key] == DictList(dicts)
    ensures GetDictList(d, key) == Some(dicts)
  {
    var items := d[key].items;
    assert seq(|items|, i requires 0 <= i < |items| => items[i].entries) == dicts;
  }

  lemma StrListRoundTrip(d: Dict, key: string, strings: seq<string>)
    requires key in d && d[key] == StrList(strings)
    ensures GetStrList(d, key) == Some(strings)
  {
    var items := d[key].items;
    assert seq(|items|, i requires 0 <= i < |items| => items[i].s) == strings;
  }

  /** A dictionary of dictionaries, stored. */
  function DictOfDicts(m: map<string, Dict>): (v: Value)
    ensures v.Map? && v.entries.Keys == m.Keys
  {
    Map(map k | k in m :: Map(m[k]))
  }

  /** A dictionary of strings, stored. */
  function StrDict(m: map<string, string>): (v: Value)
    ensures v.Map? && v.entries.Keys == m.Keys
  {
    Map(map k | k in m :: Str(m[k]))
  }

  lemma DictOfDictsRoundTrip(d: Dict, key: string, m: map<string, Dict>)
    requires key in d && d[key] == DictOfDicts(m)
    ensures GetDictOfDicts(d, key) == Some(m)
  {
    var entries := d[key].entries;
    assert forall k :: k in entries ==> entries[k] == Map(m[k]);
    assert (map k | k in entries :: entries[k].entries) == m;
  }

  lemma StrDictRoundTrip(d: Dict, key: string, m: map<string, string>)
    requires key in d && d[key] == StrDict(m)
    ensures GetStrDict(d, key) == Some(m)
  {
    var entries := d[key].entries;
    assert forall k :: k in entries ==> entries[k] == Str(m[k]);
    assert (map k | k in entries :: entries[k].s) == m;
  }

  /** Storing one more dictionary in a dictionary of dictionaries. */
  lemma DictOfDictsWith(d: Dict, key: string, k: string, inner: Dict)
    requires GetDictOfDicts(d, key).Some?
    ensures GetDictOfDicts(d[key := Map(d[key].entries[k := Map(inner)])], key) ==
            Some(GetDictOfDicts(d, key).value[k := inner])
  {
    var updated := d[key].entries[k := Map(inner)];
    assert forall j :: j in updated ==> updated[j].Map?;
    assert (map j | j in updated :: updated[j].entries) == GetDictOfDicts(d, key).value[k := inner];
  }

  /** Dropping one dictionary from a dictionary of dictionaries. */
  lemma DictOfDictsWithout(d: Dict, key: string, k: string)
    requires GetDictOfDicts(d, key).Some?
    ensures GetDictOfDicts(d[key := Map(d[key].entries - {k})], key) ==
            Some(GetDictOfDicts(d, key).value - {k})
  {
    var updated := d[key].entries - {k};
    assert forall j :: j in updated ==> updated[j].Map?;
    assert (map j | j in updated :: updated[j].entries) == GetDictOfDicts(d, key).value - {k};
  }
}
