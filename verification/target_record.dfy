/** One push destination (`PushWidget`'s name label, `rtmp_path_` and
    `rtmp_key_`) and its JSON codec `Serialize` / `Deserialize`. */
module TargetRecord {

  import opened Wrappers
  import opened Json

  const NUL: char := '\0'

  /** The contents of a `std::string` that was assigned from a C string:
      it cannot hold a NUL character. */
  type CString = s: string | NUL !in s

  /** The C-string view of a string: everything before its first NUL.
      This is what `std::string = QByteArray` (through `const char*`) and
      `c_str()` keep of a value. */
  function CStr(s: string): (r: CString)
    ensures r <= s
    ensures r == s <==> NUL !in s
    ensures |r| < |s| ==> s[|r|] == NUL
  {
    if s == [] then []
    else if s[0] == NUL then []
    else [s[0]] + CStr(s[1..])
  }

  /** The durable description of one destination. The server address and the
      stream key live in `std::string` members, so they never hold a NUL. */
  datatype Target = Target(name: string, path: CString, key: CString)

  const NameKey: string := "name"
  const PathKey: string := "rtmp-path"
  const KeyKey: string := "rtmp-key"

  /** The three keys a stored target object is made of. */
  const TargetKeys: set<string> := {NameKey, PathKey, KeyKey}

  /** `json.find(k) != json.end() && it->isString()`. */
  predicate HasString(o: map<string, Value>, k: string) {
    k in o && o[k].JString?
  }

  /** A target as a JSON object with exactly the keys `name`, `rtmp-path`
      and `rtmp-key`, each holding a string. */
  function Serialize(t: Target): (r: Value)
    ensures r.JObject? && r.fields.Keys == TargetKeys
    ensures forall k :: k in TargetKeys ==> HasString(r.fields, k)
  {
    JObject(map[NameKey := JString(t.name), PathKey := JString(t.path), KeyKey := JString(t.key)])
  }

  /** The validator: a target exists exactly when all three keys are present
      and hold strings. The name is taken as is; the path and the key keep
      what a C string keeps of them. Any other key is ignored. */
  function Deserialize(o: map<string, Value>): (r: Option<Target>)
    ensures r.Some? <==> HasString(o, NameKey) && HasString(o, PathKey) && HasString(o, KeyKey)
    ensures r.Some? ==> r.value.name == o[NameKey].str
    ensures r.Some? ==> r.value.path == CStr(o[PathKey].str) && r.value.key == CStr(o[KeyKey].str)
  {
    if HasString(o, NameKey) && HasString(o, PathKey) && HasString(o, KeyKey) then
      Some(Target(o[NameKey].str, CStr(o[PathKey].str), CStr(o[KeyKey].str)))
    else
      None
  }

  /** Every target survives a trip through its stored form unchanged. */
  lemma RoundTrip(t: Target)
    ensures Deserialize(Serialize(t).fields) == Some(t)
  {
  }

  /** The other direction: an accepted object whose path and key hold no NUL
      comes back from `Serialize` as its three target keys, nothing lost. */
  lemma ReverseRoundTrip(o: map<string, Value>)
    requires Deserialize(o).Some?
    requires NUL !in o[PathKey].str && NUL !in o[KeyKey].str
    ensures Serialize(Deserialize(o).value).fields == map k | k in o && k in TargetKeys :: o[k]
  {
  }

  /** Keys other than the three target keys have no effect on validation. */
  lemma IgnoresOtherKeys(o: map<string, Value>, k: string, v: Value)
    requires k !in TargetKeys
    ensures Deserialize(o[k := v]) == Deserialize(o)
  {
  }

  /** A NUL inside a stored path cuts it short: the path read back is the
      part before the NUL, and it is strictly shorter than what was stored. */
  lemma NulTruncatesPath(o: map<string, Value>)
    requires Deserialize(o).Some?
    requires NUL in o[PathKey].str
    ensures |Deserialize(o).value.path| < |o[PathKey].str|
    ensures o[PathKey].str[|Deserialize(o).value.path|] == NUL
  {
  }
}
