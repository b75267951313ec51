/** Tool calls as the readers record them, their argument objects and their stream events. */
module Calls {
  import opened Text

  /** What `encoding/json` contributes: the validity check and the string literal writer. */
  datatype Json = Json(valid: string -> bool, quote: string -> string)

  /** One argument in the order it was read. `text` is what the batch reader records and the live
      fragment shows; `live` is what the stream decoder records, which differs from `text` only for
      a literal holding an escaped close tag. */
  datatype Param = Param(key: string, text: string, live: string, isString: bool)

  datatype Call = Call(name: string, params: seq<Param>)

  datatype Event =
    | ReasoningDelta(text: string)
    | ContentDelta(text: string)
    | CallStart(index: nat, name: string)
    | ArgumentsDelta(index: nat, text: string)
    | CallEnd(index: nat, arguments: string)

  predicate IsToolEvent(e: Event) {
    e.CallStart? || e.ArgumentsDelta? || e.CallEnd?
  }

  // ----- ordered arguments -----

  type Args = seq<(string, string)>

  /** Later values replace earlier ones in place. */
  function SetArg(a: Args, key: string, value: string): Args {
    if a == [] then [(key, value)]
    else if a[0].0 == key then [(key, value)] + a[1..]
    else [a[0]] + SetArg(a[1..], key, value)
  }

  function Fragment(json: Json, p: Param, live: bool): string {
    var text := if live then p.live else p.text;
    if p.isString then json.quote(text) else text
  }

  function Collect(json: Json, ps: seq<Param>, live: bool): Args {
    if ps == [] then []
    else
      var p := ps[|ps| - 1];
      SetArg(Collect(json, ps[..|ps| - 1], live), p.key, Fragment(json, p, live))
  }

  function Entry(json: Json, e: (string, string)): string {
    json.quote(e.0) + ": " + e.1
  }

  function Entries(json: Json, a: Args): string {
    if a == [] then ""
    else if |a| == 1 then Entry(json, a[0])
    else Entries(json, a[..|a| - 1]) + ", " + Entry(json, a[|a| - 1])
  }

  function BuildJson(json: Json, a: Args): string {
    "{" + Entries(json, a) + "}"
  }

  /** The arguments object of a call, as the stream decoder (`live`) or the batch reader builds it. */
  function Arguments(json: Json, ps: seq<Param>, live: bool): string {
    BuildJson(json, Collect(json, ps, live))
  }

  predicate HasDuplicate(ps: seq<Param>) {
    exists i, j :: 0 <= i < j < |ps| && ps[i].key == ps[j].key
  }

  /** `orderedArgs`: insertion-ordered keys over a map of JSON fragments. */
  class OrderedArgs {
    var keys: seq<string>
    var values: map<string, string>

    predicate Valid()
      reads this
    {
      && (forall i :: 0 <= i < |keys| ==> keys[i] in values)
      && (forall k :: k in values ==> k in keys)
      && (forall i, j :: 0 <= i < j < |keys| ==> keys[i] != keys[j])
    }

    function Contents(): Args
      reads this
      requires Valid()
    {
      seq(|keys|, i requires 0 <= i < |keys| reads this requires Valid() => (keys[i], values[keys[i]]))
    }

    constructor ()
      ensures Valid() && Contents() == []
    {
      keys, values := [], map[];
    }

    method Set(json: Json, name: string, raw: string, isString: bool)
      requires Valid()
      modifies this
      ensures Valid()
      ensures Contents() == SetArg(old(Contents()), name, if isString then json.quote(raw) else raw)
    {
      hide SetArg;
      ghost var before := Contents();
      var value := if isString then json.quote(raw) else raw;
      if name !in values {
        keys := keys + [name];
        SetFresh(before, name, value);
      } else {
        var i :| 0 <= i < |keys| && keys[i] == name;
        SetAt(before, i, name, value);
      }
      values := values[name := value];
      assert Contents() == SetArg(before, name, value);
    }

    method Build(json: Json) returns (b: string)
      requires Valid()
      ensures b == BuildJson(json, Contents())
    {
      b := "{";
      var i := 0;
      var a := Contents();
      while i < |keys|
        invariant 0 <= i <= |keys|
        invariant b == "{" + Entries(json, a[..i])
      {
        if i > 0 {
          b := b + ", ";
        }
        b := b + json.quote(keys[i]) + ": " + values[keys[i]];
        assert a[..i + 1][..i] == a[..i];
        assert json.quote(keys[i]) + ": " + values[keys[i]] == Entry(json, a[i]);
        i := i + 1;
      }
      assert a[..i] == a;
      b := b + "}";
    }
  }

  lemma {:induction false} SetFresh(a: Args, key: string, value: string)
    requires forall i :: 0 <= i < |a| ==> a[i].0 != key
    ensures SetArg(a, key, value) == a + [(key, value)]
  {
    if a != [] {
      SetFresh(a[1..], key, value);
    }
  }

  lemma {:induction false} SetAt(a: Args, i: nat, key: string, value: string)
    requires i < |a| && a[i].0 == key
    requires forall j :: 0 <= j < i ==> a[j].0 != key
    ensures SetArg(a, key, value) == a[i := (key, value)]
  {
    if i > 0 {
      SetAt(a[1..], i - 1, key, value);
    }
  }

  // ----- events -----

  /** The live fragment of the last of `ps`: silent from the first repeated key on. */
  function ParamEvents(json: Json, index: nat, ps: seq<Param>): seq<Event> {
    if ps == [] then []
    else
      var p := ps[|ps| - 1];
      ParamEvents(json, index, ps[..|ps| - 1]) +
      if HasDuplicate(ps) then []
      else [ArgumentsDelta(index, (if |ps| == 1 then "{" else ", ") + json.quote(p.key) + ": " +
          Fragment(json, p, false))]
  }

  /** All events of one block-grammar call. */
  function CallEvents(json: Json, index: nat, c: Call): seq<Event> {
    [CallStart(index, c.name)] + ParamEvents(json, index, c.params) +
    [ArgumentsDelta(index, if HasDuplicate(c.params) || c.params == [] then Arguments(json, c.params, true) else "}"),
     CallEnd(index, Arguments(json, c.params, true))]
  }

  /** All events of one XML-dialect call: its deltas are the argument texts. */
  function XmlParamEvents(index: nat, ps: seq<Param>): seq<Event> {
    if ps == [] then []
    else XmlParamEvents(index, ps[..|ps| - 1]) + [ArgumentsDelta(index, ps[|ps| - 1].live)]
  }

  function XmlCallEvents(json: Json, index: nat, c: Call): seq<Event> {
    [CallStart(index, c.name)] + XmlParamEvents(index, c.params) + [CallEnd(index, Arguments(json, c.params, true))]
  }

  function BlockEvents(json: Json, xml: bool, calls: seq<Call>): seq<Event> {
    if calls == [] then []
    else
      var n := |calls| - 1;
      BlockEvents(json, xml, calls[..n]) + if xml then XmlCallEvents(json, n, calls[n])
          else CallEvents(json, n, calls[n])
  }
}
