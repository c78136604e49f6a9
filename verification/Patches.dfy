/** The ConfigMap with patches for the shard components, and how it is read. */
module Patches {
  import opened ShardTypes

  /** One value of the ConfigMap, decoded. */
  datatype Entry = Unparsable | Patch(text: string)

  predicate Usable(e: Entry) {
    e.Patch? && e.text != ""
  }

  function TextOf(e: Entry): string {
    if e.Patch? then e.text else ""
  }

  /** What getShardComponentsPatches finds. */
  datatype PatchSource =
    | NotConfigured
    | NoConfigMap
    | ConfigMap(data: map<string, Entry>)

  predicate Readable(source: PatchSource) {
    source.ConfigMap? ==> forall key :: key in source.data ==> Usable(source.data[key])
  }

  /** The texts under some keys, in no particular order. */
  ghost function Texts(data: map<string, Entry>, keys: set<string>): multiset<string>
    requires keys <= data.Keys
  {
    if keys == {} then multiset{}
    else
      var key := Pick(keys);
      Texts(data, keys - {key}) + multiset{TextOf(data[key])}
  }

  ghost function PatchesIn(source: PatchSource): multiset<string> {
    if source.ConfigMap? then Texts(source.data, source.data.Keys) else multiset{}
  }

  /** Any key may be taken first. */
  lemma {:induction false} TextsTake(data: map<string, Entry>, keys: set<string>, key: string)
    requires keys <= data.Keys && key in keys
    ensures Texts(data, keys) == Texts(data, keys - {key}) + multiset{TextOf(data[key])}
  {
    var first := Pick(keys);
    if first != key {
      TextsTake(data, keys - {first}, key);
      TextsTake(data, keys - {key}, first);
      assert keys - {first} - {key} == keys - {key} - {first};
    }
  }

  lemma OneMore(taken: seq<string>, rest: multiset<string>, text: string)
    ensures multiset(taken + [text]) + rest == multiset(taken) + (rest + multiset{text})
  {}

  /** getPatchesFromConfigMap: a loop over the map in an order the map chooses, which gives up at
      the first value that is no patch. */
  method GetPatchesFromConfigMap(data: map<string, Entry>) returns (r: Option<seq<string>>)
    ensures r.Some? <==> Readable(ConfigMap(data))
    ensures r.Some? <==> forall key :: key in data ==> data[key].Patch? && data[key].text != ""
    ensures r.Some? ==> multiset(r.value) == PatchesIn(ConfigMap(data))
  {
    hide Texts;
    var patches: seq<string> := [];
    var pending := data.Keys;
    while pending != {}
      invariant pending <= data.Keys
      invariant forall key :: key in data && key !in pending ==> Usable(data[key])
      invariant multiset(patches) + Texts(data, pending) == Texts(data, data.Keys)
      decreases |pending|
    {
      var key :| key in pending;
      if !data[key].Patch? {
        return None;
      }
      if data[key].text == "" {
        return None;
      }
      TextsTake(data, pending, key);
      OneMore(patches, Texts(data, pending - {key}), data[key].text);
      patches := patches + [data[key].text];
      pending := pending - {key};
    }
    NoTexts(data);
    r := Some(patches);
  }

  lemma NoTexts(data: map<string, Entry>)
    ensures Texts(data, {}) == multiset{}
  {}
}
