/** `MultiOutputWidget::SaveConfig` / `LoadConfig`: the ordered target list
    as a JSON array under the `targets` key. The base64 and binary-JSON step
    is a pair of foreign calls; loading takes the decoder as a parameter. */
module Config {

  import opened Wrappers
  import opened Json
  import opened TargetRecord

  /** The stored document: one serialized object per target, in order. */
  function SaveConfig(ts: seq<Target>): (r: Value)
    ensures r.JArray? && |r.items| == |ts|
    ensures forall i :: 0 <= i < |ts| ==> r.items[i].JObject? && Deserialize(r.items[i].fields) == Some(ts[i])
  {
    JArray(seq(|ts|, i requires 0 <= i < |ts| => Serialize(ts[i])))
  }

  /** What the loader makes of one array element: objects go through the
      validator, anything else is skipped. */
  function LoadItem(x: Value): Option<Target> {
    if x.JObject? then Deserialize(x.fields) else None
  }

  /** The targets restored from the elements of a stored array. */
  function LoadTargets(items: seq<Value>): (r: seq<Target>)
    ensures |r| <= |items|
    ensures forall t :: t in r ==> exists x :: x in items && LoadItem(x) == Some(t)
  {
    if items == [] then []
    else
      var rest := LoadTargets(items[1..]);
      assert forall x :: x in items[1..] ==> x in items;
      match LoadItem(items[0])
      case Some(t) => [t] + rest
      case None => rest
  }

  /** The whole load: a missing or empty stored string, a blob that does not
      decode to an array, or an array without valid targets all give no
      targets; nothing fails. */
  function LoadConfig(stored: Option<string>, decode: string -> Value): (r: seq<Target>)
    ensures stored.None? || stored == Some("") ==> r == []
    ensures stored.Some? && !decode(stored.value).JArray? ==> r == []
    ensures stored.Some? && stored.value != "" && decode(stored.value).JArray? ==> r == LoadTargets(decode(stored.value).items)
  {
    if stored.Some? && stored.value != "" then
      match decode(stored.value)
      case JArray(items) => LoadTargets(items)
      case _ => []
    else
      []
  }

  /** The loader's loop, element by element as `LoadConfig` walks the array,
      agrees with `LoadTargets`. */
  method LoadArray(items: seq<Value>) returns (loaded: seq<Target>)
    ensures loaded == LoadTargets(items)
  {
    loaded := [];
    var i := 0;
    while i < |items|
      invariant 0 <= i <= |items|
      invariant loaded == LoadTargets(items[..i])
    {
      var x := items[i];
      LoadTargetsAppend(items[..i], [x]);
      assert items[..i + 1] == items[..i] + [x];
      if x.JObject? {
        var t := Deserialize(x.fields);
        if t.Some? {
          loaded := loaded + [t.value];
        }
      }
      i := i + 1;
    }
    assert items[..i] == items;
  }

  /** Loading distributes over concatenation, so order is kept: every target
      from an earlier element precedes every target from a later one. */
  lemma {:induction false} LoadTargetsAppend(a: seq<Value>, b: seq<Value>)
    ensures LoadTargets(a + b) == LoadTargets(a) + LoadTargets(b)
  {
    if a == [] {
      assert a + b == b;
    } else {
      assert (a + b)[1..] == a[1..] + b;
      assert (a + b)[0] == a[0];
      LoadTargetsAppend(a[1..], b);
    }
  }

  /** A single element yields its target when it is a valid object and
      nothing otherwise. */
  lemma LoadTargetsSingle(x: Value)
    ensures LoadTargets([x]) == (if LoadItem(x).Some? then [LoadItem(x).value] else [])
  {
  }

  /** An array of valid objects loads completely, element for element. */
  lemma {:induction false} LoadAllValid(items: seq<Value>)
    requires forall i :: 0 <= i < |items| ==> LoadItem(items[i]).Some?
    ensures |LoadTargets(items)| == |items|
    ensures forall i :: 0 <= i < |items| ==> LoadTargets(items)[i] == LoadItem(items[i]).value
  {
    if items != [] {
      LoadAllValid(items[1..]);
    }
  }

  /** An array without a single valid object loads as no targets. */
  lemma {:induction false} LoadNoneValid(items: seq<Value>)
    requires forall i :: 0 <= i < |items| ==> LoadItem(items[i]).None?
    ensures LoadTargets(items) == []
  {
    if items != [] {
      LoadNoneValid(items[1..]);
    }
  }

  /** Saving then loading the array gives back the same targets in the same order. */
  lemma {:induction false} SaveLoadItems(ts: seq<Target>)
    ensures LoadTargets(SaveConfig(ts).items) == ts
  {
    var items := SaveConfig(ts).items;
    LoadAllValid(items);
  }

  /** The persistence round trip through any blob codec that decodes what it
      encoded: the list written on exit is the list read on the next start. */
  lemma SaveLoadRoundTrip(ts: seq<Target>, blob: string, decode: string -> Value)
    requires blob != ""
    requires decode(blob) == SaveConfig(ts)
    ensures LoadConfig(Some(blob), decode) == ts
  {
    SaveLoadItems(ts);
  }

  /** A document holding one well-formed target and one object missing its
      `rtmp-key` restores exactly the well-formed one. */
  lemma MissingKeyDropped(t: Target, name: string, path: string)
    ensures LoadTargets([Serialize(t), JObject(map[NameKey := JString(name), PathKey := JString(path)])]) == [t]
  {
  }
}
