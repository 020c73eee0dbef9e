/** The browser-side logic of data/logic.js over an abstract document: the
    elements are records in document order, and requests, shown messages,
    new event streams, retry timers and reloads are recorded in an output
    log instead of being performed. The module globals and the document
    are the fields of `Page`. */
module Logic {
  import opened Base
  import opened JsText
  import Coalescer
  import Reconnect

  /** A DOM element as the script sees it. `elemType` is the `type`
      property ("" where the element has none), `text` its innerText. */
  datatype Element = Element(id: string, name: string, value: string, checked: bool,
                             hidden: bool, text: string, elemType: string, nodeName: string)

  /** The effects the script has outside the document. */
  datatype Output =
    | Send(url: string)          // a GET request
    | Message(text: string)      // a message shown on the console and in the page
    | MissingCell(id: string)    // serializedChange's "Can't find field id" message for `id`
    | NewStream(dataEvents: bool) // a new EventSource on /events, with or without the data listeners
    | ScheduleRetry(ms: int)     // setTimeout(startEvents, ms)
    | Reload                     // cache purge and page reload

  // ---------------------------------------------------------------------
  // Document lookups

  function FindFrom(elems: seq<Element>, id: string, from: nat): (r: Option<nat>)
    requires from <= |elems|
    ensures r.Some? ==> from <= r.value < |elems| && elems[r.value].id == id
    decreases |elems| - from
  {
    if from == |elems| then None
    else if elems[from].id == id then Some(from)
    else FindFrom(elems, id, from + 1)
  }

  lemma {:induction false} FindFromIsFirst(elems: seq<Element>, id: string, from: nat)
    requires from <= |elems|
    ensures FindFrom(elems, id, from).None? <==> forall k :: from <= k < |elems| ==> elems[k].id != id
    ensures FindFrom(elems, id, from).Some? ==>
      forall k :: from <= k < FindFrom(elems, id, from).value ==> elems[k].id != id
    decreases |elems| - from
  {
    if from < |elems| && elems[from].id != id {
      FindFromIsFirst(elems, id, from + 1);
    }
  }

  /** `document.getElementById(id)`: the first element in document order
      with that id; there is none for the empty id. */
  function FindById(elems: seq<Element>, id: string): (r: Option<nat>)
    ensures r.Some? ==> r.value < |elems| && elems[r.value].id == id
  {
    if id == "" then None else FindFrom(elems, id, 0)
  }

  /** The element found is the first with the id, and nothing is found
      only when no element has it (or it is empty). */
  lemma FindByIdIsFirst(elems: seq<Element>, id: string)
    ensures FindById(elems, id).None? <==> id == "" || forall k :: 0 <= k < |elems| ==> elems[k].id != id
    ensures FindById(elems, id).Some? ==> forall k :: 0 <= k < FindById(elems, id).value ==> elems[k].id != id
  {
    FindFromIsFirst(elems, id, 0);
  }

  function GroupFrom(elems: seq<Element>, name: string, from: nat): (r: seq<nat>)
    requires from <= |elems|
    ensures forall k :: 0 <= k < |r| ==> from <= r[k] < |elems| && elems[r[k]].name == name
    decreases |elems| - from
  {
    if from == |elems| then []
    else if elems[from].name == name then [from] + GroupFrom(elems, name, from + 1)
    else GroupFrom(elems, name, from + 1)
  }

  lemma {:induction false} GroupFromIsGroup(elems: seq<Element>, name: string, from: nat)
    requires from <= |elems|
    ensures forall j :: from <= j < |elems| && elems[j].name == name ==> j in GroupFrom(elems, name, from)
    ensures forall a, b :: 0 <= a < b < |GroupFrom(elems, name, from)| ==>
      GroupFrom(elems, name, from)[a] < GroupFrom(elems, name, from)[b]
    decreases |elems| - from
  {
    if from < |elems| {
      GroupFromIsGroup(elems, name, from + 1);
    }
  }

  /** `document.getElementsByName(name)`: the positions of the elements
      named `name`, in document order. It is a list, possibly empty, and
      never null. */
  function ElementsByName(elems: seq<Element>, name: string): (r: seq<nat>)
    ensures forall k :: 0 <= k < |r| ==> r[k] < |elems| && elems[r[k]].name == name
  {
    GroupFrom(elems, name, 0)
  }

  /** The group holds every element with the name, once each, in document
      order. */
  lemma ElementsByNameIsGroup(elems: seq<Element>, name: string)
    ensures forall j :: 0 <= j < |elems| && elems[j].name == name ==> j in ElementsByName(elems, name)
    ensures forall a, b :: 0 <= a < b < |ElementsByName(elems, name)| ==>
      ElementsByName(elems, name)[a] < ElementsByName(elems, name)[b]
  {
    GroupFromIsGroup(elems, name, 0);
  }

  /** Two documents with the same elements up to their contents: the same
      ids and names at the same places. */
  predicate SameShape(a: seq<Element>, b: seq<Element>) {
    |a| == |b| && forall j :: 0 <= j < |a| ==> a[j].id == b[j].id && a[j].name == b[j].name
  }

  lemma {:induction false} FindFromByShape(a: seq<Element>, b: seq<Element>, id: string, from: nat)
    requires SameShape(a, b) && from <= |a|
    ensures FindFrom(a, id, from) == FindFrom(b, id, from)
    decreases |a| - from
  {
    if from < |a| {
      assert a[from].id == b[from].id;
      FindFromByShape(a, b, id, from + 1);
    }
  }

  lemma {:induction false} GroupFromByShape(a: seq<Element>, b: seq<Element>, name: string, from: nat)
    requires SameShape(a, b) && from <= |a|
    ensures GroupFrom(a, name, from) == GroupFrom(b, name, from)
    decreases |a| - from
  {
    if from < |a| {
      assert a[from].name == b[from].name;
      GroupFromByShape(a, b, name, from + 1);
    }
  }

  /** The lookups see only ids and names, never the values the script
      writes. */
  lemma LookupsByShape(a: seq<Element>, b: seq<Element>, key: string)
    requires SameShape(a, b)
    ensures FindById(a, key) == FindById(b, key)
    ensures ElementsByName(a, key) == ElementsByName(b, key)
  {
    FindFromByShape(a, b, key, 0);
    GroupFromByShape(a, b, key, 0);
  }

  // ---------------------------------------------------------------------
  // The change URL of `changed`

  /** The key and the value `changed(object, value)` reports. */
  function ChangeTarget(obj: Element, value: string): (string, string) {
    if value != "" then (obj.id, value)
    else if Substring(obj.id, 0, 5) == "trace" || Substring(obj.id, 0, 6) == "enable" then
      (obj.id, if obj.checked then "true" else "false")
    else if obj.name != "" then (obj.name, obj.value)
    else (obj.id, obj.value)
  }

  /** The request `changed` sends, with its first `#` removed. */
  function ChangeUrl(origin: string, obj: Element, value: string): string {
    var (key, v) := ChangeTarget(obj, value);
    RemoveFirst(origin + "/changed/" + key + "/" + v, '#')
  }

  /** The precedence of `changed`: an explicit value, then the checked
      state of trace and enable switches, then the name, then the id. */
  lemma ChangePrecedence(obj: Element, value: string)
    ensures value != "" ==> ChangeTarget(obj, value) == (obj.id, value)
    ensures value == "" && ("trace" <= obj.id || "enable" <= obj.id) ==>
      ChangeTarget(obj, value) == (obj.id, if obj.checked then "true" else "false")
    ensures value == "" && !("trace" <= obj.id || "enable" <= obj.id) && obj.name != "" ==>
      ChangeTarget(obj, value) == (obj.name, obj.value)
    ensures value == "" && !("trace" <= obj.id || "enable" <= obj.id) && obj.name == "" ==>
      ChangeTarget(obj, value) == (obj.id, obj.value)
  {
    SubstringPrefix(obj.id, 5);
    SubstringPrefix(obj.id, 6);
  }

  /** A colour picker's value loses its leading `#` in the request, and
      nothing else is removed. */
  lemma ColourValueUrl(origin: string, obj: Element, rest: string)
    requires '#' !in origin && '#' !in obj.id && '#' !in rest
    requires obj.value == "#" + rest && obj.name == ""
    requires !("trace" <= obj.id || "enable" <= obj.id)
    ensures ChangeUrl(origin, obj, "") == origin + "/changed/" + obj.id + "/" + rest
  {
    ChangePrecedence(obj, "");
    var head := origin + "/changed/" + obj.id + "/";
    var raw := head + obj.value;
    assert raw == head + ['#'] + rest;
    assert raw[..|head|] == head && raw[|head|] == '#' && raw[|head| + 1..] == rest;
    RemoveFirstKeepsPrefix(raw, '#', |head|);
  }

  // ---------------------------------------------------------------------
  // Edits, acknowledgements and colours

  /** What an operation does to the document and what it emits. */
  datatype Effect = Effect(elems: seq<Element>, out: seq<Output>)

  /** serializedChange(obj): the flag in `<id>Serialized` moves as the
      coalescer says, and a request for `obj` goes out when it says so. */
  function EditEffect(elems: seq<Element>, origin: string, obj: Element): Effect {
    match FindById(elems, obj.id + "Serialized")
    case None => Effect(elems, [MissingCell(obj.id)])
    case Some(c) =>
      var step := Coalescer.OnEdit(elems[c].value);
      Effect(elems[c := elems[c].(value := step.flag)],
             if step.send then [Send(ChangeUrl(origin, obj, ""))] else [])
  }

  /** The flag cell endSerialized reads exists. */
  predicate CanAck(elems: seq<Element>, fieldName: string) {
    FindById(elems, fieldName + "Serialized").Some?
  }

  /** endSerialized throws a TypeError when the flag cell is missing (its
      value is read without a null check), and on a re-send for a field that
      does not exist (`changed(null)` fails before it sends anything). */
  predicate AckThrows(elems: seq<Element>, fieldName: string) {
    match FindById(elems, fieldName + "Serialized")
    case None => true
    case Some(c) => elems[c].value == Coalescer.Superseded && FindById(elems, fieldName).None?
  }

  /** endSerialized(fieldName): the flag moves as the coalescer says, and a
      re-send reports the field as it is now; when the field is missing the
      flag has already moved and nothing is sent, and without a flag cell
      nothing happens at all. */
  function AckEffect(elems: seq<Element>, origin: string, fieldName: string): Effect {
    match FindById(elems, fieldName + "Serialized")
    case None => Effect(elems, [])
    case Some(c) =>
      var step := Coalescer.OnAck(elems[c].value);
      var after := elems[c := elems[c].(value := step.flag)];
      if step.send then
        match FindById(elems, fieldName)
        case Some(f) => Effect(after, [Send(ChangeUrl(origin, after[f], ""))])
        case None => Effect(after, [])
      else Effect(after, [])
  }

  /** A missing flag cell yields only its message. */
  lemma MissingCellOnlyMessage(elems: seq<Element>, origin: string, obj: Element)
    requires FindById(elems, obj.id + "Serialized").None?
    ensures EditEffect(elems, origin, obj) == Effect(elems, [MissingCell(obj.id)])
  {
  }

  /** An edit touches only the flag cell's value, sends at most one request,
      and sends exactly when the flag was "0". */
  lemma EditTouchesOnlyTheCell(elems: seq<Element>, origin: string, obj: Element)
    requires FindById(elems, obj.id + "Serialized").Some?
    ensures var c := FindById(elems, obj.id + "Serialized").value;
            var eff := EditEffect(elems, origin, obj);
            && SameShape(elems, eff.elems)
            && (forall j :: 0 <= j < |elems| && j != c ==> eff.elems[j] == elems[j])
            && eff.elems[c] == elems[c].(value := eff.elems[c].value)
            && EditTransition(elems[c].value, eff.elems[c].value)
            && (|eff.out| == 1 <==> elems[c].value == Coalescer.Idle)
            && |eff.out| <= 1
  {
  }

  /** The edit moves "0" to "1", "1" to "2" and keeps any other flag. */
  predicate EditTransition(before: string, after: string) {
    if before == Coalescer.Idle then after == Coalescer.InFlight
    else if before == Coalescer.InFlight then after == Coalescer.Superseded
    else after == before
  }

  /** Without its flag cell, endSerialized throws before it changes or
      sends anything. */
  lemma AckWithoutCellThrows(elems: seq<Element>, origin: string, fieldName: string)
    requires !CanAck(elems, fieldName)
    ensures AckThrows(elems, fieldName)
    ensures AckEffect(elems, origin, fieldName) == Effect(elems, [])
  {
  }

  /** An acknowledgement of a superseded change sends the field's current
      contents, or nothing when the field is missing (the flag then stays at
      "1"), and any other acknowledgement only resets the flag. */
  lemma AckSendsCurrentValue(elems: seq<Element>, origin: string, fieldName: string)
    requires CanAck(elems, fieldName)
    ensures var c := FindById(elems, fieldName + "Serialized").value;
            var eff := AckEffect(elems, origin, fieldName);
            && SameShape(elems, eff.elems)
            && (forall j :: 0 <= j < |elems| && j != c ==> eff.elems[j] == elems[j])
            && (elems[c].value == Coalescer.Superseded ==> eff.elems[c].value == Coalescer.InFlight)
            && (elems[c].value == Coalescer.Superseded && FindById(elems, fieldName).Some? ==>
                  eff.out == [Send(ChangeUrl(origin, elems[FindById(elems, fieldName).value], ""))])
            && (AckThrows(elems, fieldName) ==> eff.out == [])
            && (elems[c].value != Coalescer.Superseded ==>
                  eff.elems[c].value == Coalescer.Idle && eff.out == [])
  {
    var c := FindById(elems, fieldName + "Serialized").value;
    if elems[c].value == Coalescer.Superseded && FindById(elems, fieldName).Some? {
      var f := FindById(elems, fieldName).value;
      assert elems[f].id == fieldName != fieldName + "Serialized" by {
        assert |fieldName + "Serialized"| > |fieldName|;
      }
    }
  }

  /** The value colorChanged writes into a colour field: `parseInt` of two
      hex digits of the picker's value, as a string. */
  function ColourComponent(hexColor: string, start: int): string {
    NumberToString(ParseInt16(Substr(hexColor, start, 2)))
  }

  /** The fields of `#rrggbb` come back as the three byte values. */
  lemma ColourRoundTrip(r: nat, g: nat, b: nat)
    requires r < 256 && g < 256 && b < 256
    ensures var hex := "#" + HexByte(r) + HexByte(g) + HexByte(b);
            ColourComponent(hex, 1) == IntToString(r)
            && ColourComponent(hex, 3) == IntToString(g)
            && ColourComponent(hex, 5) == IntToString(b)
  {
    var hex := "#" + HexByte(r) + HexByte(g) + HexByte(b);
    assert Substr(hex, 1, 2) == HexByte(r);
    assert Substr(hex, 3, 2) == HexByte(g);
    assert Substr(hex, 5, 2) == HexByte(b);
    ParseHexByte(r);
    ParseHexByte(g);
    ParseHexByte(b);
  }

  /** A value too short to hold a component gives "NaN". */
  lemma ShortColourIsNaN(hexColor: string, start: nat)
    requires |hexColor| <= start
    ensures ColourComponent(hexColor, start) == "NaN"
  {
    assert Substr(hexColor, start, 2) == [];
  }

  /** `document.getElementById(id).value = v` for an id that exists. */
  function SetValue(elems: seq<Element>, id: string, v: string): (r: seq<Element>)
    ensures SameShape(elems, r)
    ensures FindById(elems, id).None? ==> r == elems
    ensures FindById(elems, id).Some? ==>
      var i := FindById(elems, id).value;
      r[i] == elems[i].(value := v) && forall j :: 0 <= j < |elems| && j != i ==> r[j] == elems[j]
  {
    match FindById(elems, id)
    case None => elems
    case Some(i) => elems[i := elems[i].(value := v)]
  }

  /** The three colour fields after colorChanged has written them. */
  function Painted(elems: seq<Element>, hexColor: string, redField: string, greenField: string,
                   blueField: string): seq<Element>
  {
    var e1 := SetValue(elems, redField, ColourComponent(hexColor, 1));
    var e2 := SetValue(e1, greenField, ColourComponent(hexColor, 3));
    SetValue(e2, blueField, ColourComponent(hexColor, 5))
  }

  predicate ColourFieldsExist(elems: seq<Element>, redField: string, greenField: string, blueField: string) {
    FindById(elems, redField).Some? && FindById(elems, greenField).Some? && FindById(elems, blueField).Some?
  }

  /** colorChanged: the fields are written in turn, and the first missing one
      throws a TypeError, leaving the earlier ones written; with all three
      present the picker's change then goes through the coalescer. */
  function ColourEffect(elems: seq<Element>, origin: string, obj: Element, redField: string,
                        greenField: string, blueField: string): Effect
  {
    var e1 := SetValue(elems, redField, ColourComponent(obj.value, 1));
    var e2 := SetValue(e1, greenField, ColourComponent(obj.value, 3));
    if FindById(elems, redField).None? then Effect(elems, [])
    else if FindById(elems, greenField).None? then Effect(e1, [])
    else if FindById(elems, blueField).None? then Effect(e2, [])
    else EditEffect(Painted(elems, obj.value, redField, greenField, blueField), origin, obj)
  }

  /** A missing colour field stops colorChanged: nothing is sent, the flag
      cell and every element other than the fields before the missing one
      keep their contents, and a missing red field changes nothing at all. */
  lemma MissingColourFieldStops(elems: seq<Element>, origin: string, obj: Element, redField: string,
                                greenField: string, blueField: string)
    requires !ColourFieldsExist(elems, redField, greenField, blueField)
    ensures var eff := ColourEffect(elems, origin, obj, redField, greenField, blueField);
            && eff.out == []
            && SameShape(elems, eff.elems)
            && (FindById(elems, redField).None? ==> eff.elems == elems)
            && forall j :: 0 <= j < |elems| && eff.elems[j] != elems[j] ==>
                 elems[j].id == redField || (elems[j].id == greenField && FindById(elems, blueField).None?)
  {
    var e1 := SetValue(elems, redField, ColourComponent(obj.value, 1));
    LookupsByShape(elems, e1, greenField);
  }

  /** With all three fields present, colorChanged paints them and then runs
      the picker's change through the coalescer. */
  lemma ColourEffectPaintsThenEdits(elems: seq<Element>, origin: string, obj: Element, redField: string,
                                    greenField: string, blueField: string)
    requires ColourFieldsExist(elems, redField, greenField, blueField)
    ensures ColourEffect(elems, origin, obj, redField, greenField, blueField)
         == EditEffect(Painted(elems, obj.value, redField, greenField, blueField), origin, obj)
  {
  }

  /** With three distinct fields, each gets its own component and every
      other element is unchanged. */
  lemma PaintedFields(elems: seq<Element>, hexColor: string, redField: string, greenField: string,
                      blueField: string)
    requires FindById(elems, redField).Some? && FindById(elems, greenField).Some? && FindById(elems, blueField).Some?
    requires redField != greenField && redField != blueField && greenField != blueField
    ensures var p := Painted(elems, hexColor, redField, greenField, blueField);
            var r := FindById(elems, redField).value;
            var g := FindById(elems, greenField).value;
            var b := FindById(elems, blueField).value;
            && SameShape(elems, p)
            && p[r] == elems[r].(value := ColourComponent(hexColor, 1))
            && p[g] == elems[g].(value := ColourComponent(hexColor, 3))
            && p[b] == elems[b].(value := ColourComponent(hexColor, 5))
            && forall j :: 0 <= j < |elems| && j != r && j != g && j != b ==> p[j] == elems[j]
  {
    var e1 := SetValue(elems, redField, ColourComponent(hexColor, 1));
    LookupsByShape(elems, e1, greenField);
    var e2 := SetValue(e1, greenField, ColourComponent(hexColor, 3));
    LookupsByShape(elems, e2, blueField);
  }

  // ---------------------------------------------------------------------
  // setData

  /** The `type`s whose `value` setData writes; other elements get their
      innerText set. */
  const ValueTypes: seq<string> := ["text", "number", "button", "select-one"]

  /** setData on the element whose id is the key. */
  function ApplyToElement(e: Element, key: string, data: JsonValue): Element {
    if e.elemType == "checkbox" then e.(checked := IsTrueString(data))
    else if e.nodeName == "DIV" && AsciiLower(Substring(key, 0, 4)) == "hide" then e.(hidden := IsTrueString(data))
    else if e.elemType in ValueTypes then e.(value := ToJsString(data))
    else e.(text := ToJsString(data))
  }

  /** setData on a name group: each member's checked state. */
  function CheckInGroup(e: Element, key: string, data: JsonValue): Element {
    if e.name == key then e.(checked := LooseEquals(e.value, data)) else e
  }

  /** The document after setData(key, data). */
  function DataApplied(elems: seq<Element>, key: string, data: JsonValue): seq<Element> {
    match FindById(elems, key)
    case Some(i) => elems[i := ApplyToElement(elems[i], key, data)]
    case None => seq(|elems|, j requires 0 <= j < |elems| => CheckInGroup(elems[j], key, data))
  }

  /** Neither an element with the key as id nor one with it as name. */
  predicate Missing(elems: seq<Element>, key: string) {
    FindById(elems, key).None? && ElementsByName(elems, key) == []
  }

  /** What setData writes, field by field: a checkbox's checked state and a
      hiding DIV's hidden state follow the "true" test, and in a name group
      exactly the members whose value equals the data are checked; the other
      elements are covered by SetDataValueOrText. */
  lemma SetDataOutcome(elems: seq<Element>, key: string, data: JsonValue)
    ensures var after := DataApplied(elems, key, data);
            && SameShape(elems, after)
            && (FindById(elems, key).Some? ==>
                  var i := FindById(elems, key).value;
                  && (forall j :: 0 <= j < |elems| && j != i ==> after[j] == elems[j])
                  && (elems[i].elemType == "checkbox" ==>
                        after[i] == elems[i].(checked := IsTrueString(data)))
                  && (elems[i].elemType != "checkbox" && elems[i].nodeName == "DIV"
                      && AsciiLower(Substring(key, 0, 4)) == "hide" ==>
                        after[i] == elems[i].(hidden := IsTrueString(data))))
            && (FindById(elems, key).None? ==>
                  forall j :: 0 <= j < |elems| ==>
                    after[j].checked == (if elems[j].name == key then LooseEquals(elems[j].value, data) else elems[j].checked)
                    && after[j] == elems[j].(checked := after[j].checked))
  {
  }

  /** An element found by id that is neither a checkbox nor a hiding DIV
      gets the data's text: as its value when it is a text, number, button
      or single-choice select input, and as its inner text otherwise. */
  lemma SetDataValueOrText(elems: seq<Element>, key: string, data: JsonValue)
    requires FindById(elems, key).Some?
    requires var e := elems[FindById(elems, key).value];
      e.elemType != "checkbox" && !(e.nodeName == "DIV" && AsciiLower(Substring(key, 0, 4)) == "hide")
    ensures var i := FindById(elems, key).value;
            var after := DataApplied(elems, key, data);
            && |after| == |elems|
            && (elems[i].elemType in ValueTypes ==> after[i] == elems[i].(value := ToJsString(data)))
            && (elems[i].elemType !in ValueTypes ==> after[i] == elems[i].(text := ToJsString(data)))
  {
  }

  /** The test on the key: it starts with "hide" in any mix of cases. */
  lemma HidePrefix(key: string)
    ensures AsciiLower(Substring(key, 0, 4)) == "hide" <==>
      |key| >= 4 && AsciiLower(key[..4]) == "hide"
  {
    SubstringPrefix(key, 4);
    if |key| < 4 {
      assert |AsciiLower(Substring(key, 0, 4))| < 4;
    }
  }

  /** The document setData leaves has the same keys, so a later key finds
      what it would have found before. */
  lemma {:induction false} LoadedKeepsShape(elems: seq<Element>, pairs: seq<(string, JsonValue)>)
    ensures SameShape(elems, LoadedElems(elems, pairs))
  {
    if pairs != [] {
      var before := LoadedElems(elems, pairs[..|pairs| - 1]);
      LoadedKeepsShape(elems, pairs[..|pairs| - 1]);
      SetDataOutcome(before, pairs[|pairs| - 1].0, pairs[|pairs| - 1].1);
    }
  }

  /** The document after loadData has applied the pairs in order. */
  function LoadedElems(elems: seq<Element>, pairs: seq<(string, JsonValue)>): seq<Element> {
    if pairs == [] then elems
    else DataApplied(LoadedElems(elems, pairs[..|pairs| - 1]), pairs[|pairs| - 1].0, pairs[|pairs| - 1].1)
  }

  function CantFind(key: string): string {
    "### Can't find " + key + " in document ###"
  }

  /** The messages loadData shows: one per key the document lacks. */
  function MissingReports(elems: seq<Element>, pairs: seq<(string, JsonValue)>): seq<Output> {
    if pairs == [] then []
    else
      MissingReports(elems, pairs[..|pairs| - 1])
      + (if Missing(elems, pairs[|pairs| - 1].0) then [Message(CantFind(pairs[|pairs| - 1].0))] else [])
  }

  /** Every message names a key of the data that the document lacks, */
  lemma {:induction false} ReportsNameMissingKeys(elems: seq<Element>, pairs: seq<(string, JsonValue)>)
    ensures forall m :: m in MissingReports(elems, pairs) ==>
      exists k :: 0 <= k < |pairs| && Missing(elems, pairs[k].0) && m == Message(CantFind(pairs[k].0))
  {
    if pairs != [] {
      var init := pairs[..|pairs| - 1];
      ReportsNameMissingKeys(elems, init);
      forall m | m in MissingReports(elems, pairs)
        ensures exists k :: 0 <= k < |pairs| && Missing(elems, pairs[k].0) && m == Message(CantFind(pairs[k].0))
      {
        if m in MissingReports(elems, init) {
          var k :| 0 <= k < |init| && Missing(elems, init[k].0) && m == Message(CantFind(init[k].0));
          assert pairs[k] == init[k];
        } else {
          assert Missing(elems, pairs[|pairs| - 1].0) && m == Message(CantFind(pairs[|pairs| - 1].0));
        }
      }
    }
  }

  /** and there is none when the document has every key. */
  lemma {:induction false} NoReportWhenAllPresent(elems: seq<Element>, pairs: seq<(string, JsonValue)>)
    requires forall k :: 0 <= k < |pairs| ==> !Missing(elems, pairs[k].0)
    ensures MissingReports(elems, pairs) == []
  {
    if pairs != [] {
      NoReportWhenAllPresent(elems, pairs[..|pairs| - 1]);
    }
  }

  /** A key that matches nothing: what setData is documented to report. */
  lemma UnmatchedKeyExists()
    ensures Missing([Element("a", "b", "", false, false, "", "text", "INPUT")], "c")
  {
    var d := [Element("a", "b", "", false, false, "", "text", "INPUT")];
    assert d[0].name != "c";
  }

  // ---------------------------------------------------------------------
  // getKeysValues

  function KeyValue(key: string, v: JsonValue): string {
    key + "=" + ToJsString(v)
  }

  /** getKeysValues: `key=String(value)` for each key, in order. */
  method GetKeysValues(obj: seq<(string, JsonValue)>) returns (keysValues: seq<string>)
    ensures |keysValues| == |obj|
    ensures forall k :: 0 <= k < |obj| ==> keysValues[k] == KeyValue(obj[k].0, obj[k].1)
  {
    keysValues := [];
    for k := 0 to |obj|
      invariant |keysValues| == k
      invariant forall j :: 0 <= j < k ==> keysValues[j] == KeyValue(obj[j].0, obj[j].1)
    {
      keysValues := keysValues + [obj[k].0 + "=" + ToJsString(obj[k].1)];
    }
  }

  /** A key without `=` is recovered by splitting an entry at its first `=`,
      and the value's text is what follows. */
  lemma KeyValueSplits(key: string, v: JsonValue)
    requires '=' !in key
    ensures var s := KeyValue(key, v);
            IndexOf(s, '=') == Some(|key|) && s[..|key|] == key && s[|key| + 1..] == ToJsString(v)
  {
    var s := KeyValue(key, v);
    assert s[..|key|] == key;
    assert s[|key|] == '=';
  }

  // ---------------------------------------------------------------------
  // The page

  function ClosedMessage(readyState: int): string {
    "### Events closed (" + IntToString(readyState) + ") ###"
  }

  const RestartMessage := "Server restarted - Reloading page"

  class Page {
    /** `location.origin`. */
    const origin: string
    /** The document's elements, in document order. */
    var elems: seq<Element>
    /** Everything the page has emitted so far. */
    var log: seq<Output>
    var startEventsPending: bool
    var startEventsDelay: int
    var lastTime: string

    /** The page as loaded: the globals at their initial values. */
    constructor(origin: string, document: seq<Element>)
      ensures this.origin == origin && elems == document && log == []
      ensures ReconnectState() == Reconnect.Initial && lastTime == ""
    {
      this.origin := origin;
      elems := document;
      log := [];
      startEventsPending := false;
      startEventsDelay := 0;
      lastTime := "";
    }

    function ReconnectState(): Reconnect.State
      reads this
    {
      Reconnect.State(startEventsPending, startEventsDelay)
    }

    /** changed(object, value): the change request. */
    method Changed(obj: Element, value: string)
      modifies this`log
      ensures log == old(log) + [Send(ChangeUrl(origin, obj, value))]
    {
      var (key, v) := ChangeTarget(obj, value);
      log := log + [Send(RemoveFirst(origin + "/changed/" + key + "/" + v, '#'))];
    }

    method SerializedChange(obj: Element)
      modifies this`elems, this`log
      ensures elems == EditEffect(old(elems), origin, obj).elems
      ensures log == old(log) + EditEffect(old(elems), origin, obj).out
    {
      var flagCell := FindById(elems, obj.id + "Serialized");
      if flagCell.None? {
        log := log + [MissingCell(obj.id)];
      } else {
        var c := flagCell.value;
        if elems[c].value == "0" {
          elems := elems[c := elems[c].(value := "1")];
          Changed(obj, "");
        } else if elems[c].value == "1" {
          elems := elems[c := elems[c].(value := "2")];
        }
      }
    }

    /** endSerialized; `thrown` is its TypeError, for a missing flag cell or
        a re-send for a missing field. */
    method EndSerialized(fieldName: string) returns (thrown: bool)
      modifies this`elems, this`log
      ensures elems == AckEffect(old(elems), origin, fieldName).elems
      ensures log == old(log) + AckEffect(old(elems), origin, fieldName).out
      ensures thrown <==> AckThrows(old(elems), fieldName)
    {
      thrown := false;
      var cell := FindById(elems, fieldName + "Serialized");
      if cell.None? {
        thrown := true;
        return;
      }
      var c := cell.value;
      if elems[c].value == "2" {
        var before := elems;
        elems := elems[c := elems[c].(value := "1")];
        LookupsByShape(before, elems, fieldName);
        var field := FindById(elems, fieldName);
        if field.None? {
          thrown := true;
          return;
        }
        Changed(elems[field.value], "");
      } else {
        elems := elems[c := elems[c].(value := "0")];
      }
    }

    /** colorChanged: the three fields get the picker's components, then the
        picker's change goes through the coalescer. */
    method ColorChanged(obj: Element, redField: string, greenField: string, blueField: string)
      returns (thrown: bool)
      modifies this`elems, this`log
      ensures elems == ColourEffect(old(elems), origin, obj, redField, greenField, blueField).elems
      ensures log == old(log) + ColourEffect(old(elems), origin, obj, redField, greenField, blueField).out
      ensures thrown <==> !ColourFieldsExist(old(elems), redField, greenField, blueField)
    {
      thrown := true;
      var hexColor := obj.value;
      var start := elems;
      if FindById(elems, redField).None? {
        return;
      }
      elems := SetValue(elems, redField, ColourComponent(hexColor, 1));
      LookupsByShape(start, elems, greenField);
      if FindById(elems, greenField).None? {
        return;
      }
      var e1 := elems;
      elems := SetValue(elems, greenField, ColourComponent(hexColor, 3));
      LookupsByShape(start, e1, blueField);
      LookupsByShape(e1, elems, blueField);
      if FindById(elems, blueField).None? {
        return;
      }
      elems := SetValue(elems, blueField, ColourComponent(hexColor, 5));
      thrown := false;
      SerializedChange(obj);
    }

    /** setData's element updates; `matched` tells whether the key named an
        element or a non-empty group. */
    method ApplyData(key: string, data: JsonValue) returns (matched: bool)
      modifies this`elems
      ensures elems == DataApplied(old(elems), key, data)
      ensures matched <==> !Missing(old(elems), key)
    {
      var element := FindById(elems, key);
      if element.Some? {
        var i := element.value;
        var e := elems[i];
        if e.elemType == "checkbox" {
          e := e.(checked := IsTrueString(data));
        } else if e.nodeName == "DIV" && AsciiLower(Substring(key, 0, 4)) == "hide" {
          e := e.(hidden := IsTrueString(data));
        } else if e.elemType == "text" || e.elemType == "number" || e.elemType == "button" || e.elemType == "select-one" {
          e := e.(value := ToJsString(data));
        } else {
          e := e.(text := ToJsString(data));
        }
        elems := elems[i := e];
        matched := true;
      } else {
        matched := CheckGroup(key, data);
      }
    }

    /** setData's loop over the name group: each member is checked exactly
        when its value equals the data. */
    method CheckGroup(key: string, data: JsonValue) returns (nonEmpty: bool)
      modifies this`elems
      ensures elems == seq(|old(elems)|, j requires 0 <= j < |old(elems)| => CheckInGroup(old(elems)[j], key, data))
      ensures nonEmpty <==> ElementsByName(old(elems), key) != []
    {
      var group := ElementsByName(elems, key);
      ElementsByNameIsGroup(elems, key);
      ghost var start := elems;
      for i := 0 to |group|
        invariant |elems| == |start|
        invariant forall j :: 0 <= j < |start| ==>
          elems[j] == if j in group[..i] then CheckInGroup(start[j], key, data) else start[j]
      {
        var g := group[i];
        assert g !in group[..i];
        assert group[..i + 1] == group[..i] + [g];
        elems := elems[g := elems[g].(checked := LooseEquals(elems[g].value, data))];
      }
      assert group[..|group|] == group;
      nonEmpty := group != [];
    }

    /** setData as written: the NodeList of getElementsByName is never
        null, so a key that matches nothing is still reported as found. */
    method SetData(key: string, data: JsonValue) returns (notFound: bool)
      modifies this`elems
      ensures elems == DataApplied(old(elems), key, data)
      ensures !notFound
    {
      var _ := ApplyData(key, data);
      notFound := false;
    }

    /** setData as documented: true exactly when the key matches nothing. */
    method SetDataReporting(key: string, data: JsonValue) returns (notFound: bool)
      modifies this`elems
      ensures elems == DataApplied(old(elems), key, data)
      ensures notFound <==> Missing(old(elems), key)
    {
      var matched := ApplyData(key, data);
      notFound := !matched;
    }

    /** loadData as written, for the result of JSON.parse, None when it
        throws: each key in order is set, and since setData never reports a
        missing key, no message is ever shown. */
    method LoadData(parsed: Option<seq<(string, JsonValue)>>)
      modifies this`elems, this`log
      ensures parsed.None? ==> elems == old(elems)
      ensures parsed.Some? ==> elems == LoadedElems(old(elems), parsed.value)
      ensures log == old(log)
    {
      if parsed.Some? {
        var pairs := parsed.value;
        for k := 0 to |pairs|
          invariant elems == LoadedElems(old(elems), pairs[..k])
          invariant log == old(log)
        {
          assert pairs[..k + 1][..k] == pairs[..k];
          var (key, data) := pairs[k];
          var notFound := SetData(key, data);
          log := log + if notFound then [Message(CantFind(key))] else [];
        }
        assert pairs[..|pairs|] == pairs;
      }
    }

    /** loadData over the corrected setData: each key in order is set, and a
        key the document lacks is reported. */
    method LoadDataReporting(parsed: Option<seq<(string, JsonValue)>>)
      modifies this`elems, this`log
      ensures parsed.None? ==> elems == old(elems) && log == old(log)
      ensures parsed.Some? ==>
        elems == LoadedElems(old(elems), parsed.value)
        && log == old(log) + MissingReports(old(elems), parsed.value)
    {
      if parsed.Some? {
        var pairs := parsed.value;
        for k := 0 to |pairs|
          invariant elems == LoadedElems(old(elems), pairs[..k])
          invariant log == old(log) + MissingReports(old(elems), pairs[..k])
        {
          assert pairs[..k + 1][..k] == pairs[..k];
          LoadedKeepsShape(old(elems), pairs[..k]);
          LookupsByShape(old(elems), elems, pairs[k].0);
          var notFound := SetDataReporting(pairs[k].0, pairs[k].1);
          if notFound {
            log := log + [Message(CantFind(pairs[k].0))];
          }
        }
        assert pairs[..|pairs|] == pairs;
      }
    }

    method StartEvents(getDataEvents: bool)
      modifies this`startEventsPending, this`log
      ensures ReconnectState() == Reconnect.StartEvents(old(ReconnectState()))
      ensures log == old(log) + [NewStream(getDataEvents)]
    {
      log := log + [NewStream(getDataEvents)];
      startEventsPending := false;
    }

    method OnOpen()
      modifies this`startEventsDelay
      ensures ReconnectState() == Reconnect.OnOpen(old(ReconnectState()))
    {
      startEventsDelay := 0;
    }

    method OnError(readyState: int)
      modifies this`startEventsPending, this`startEventsDelay, this`log
      ensures var r := Reconnect.OnError(old(ReconnectState()), readyState);
              && ReconnectState() == r.state
              && log == old(log) + (if r.logged then [Message(ClosedMessage(readyState))] else [])
                                 + (if r.retry.Some? then [ScheduleRetry(r.retry.value)] else [])
    {
      if readyState == Reconnect.Closed {
        log := log + [Message("### Events closed (" + IntToString(readyState) + ") ###")];
        if !startEventsPending {
          log := log + [ScheduleRetry(startEventsDelay * 1000)];
          startEventsPending := true;
          if startEventsDelay < 10 {
            startEventsDelay := startEventsDelay + 1;
          }
        }
      }
    }

    /** checkTime: a time below the last one means the server restarted. */
    method CheckTime(newTime: string) returns (reload: bool)
      modifies this`lastTime, this`log
      ensures reload <==> LexLess(newTime, old(lastTime))
      ensures lastTime == newTime
      ensures log == old(log) + (if reload then [Message(RestartMessage), Reload] else [])
    {
      reload := LexLess(newTime, lastTime);
      if reload {
        log := log + [Message("Server restarted - Reloading page"), Reload];
      }
      lastTime := newTime;
    }
  }

  /** The reload decision along a run of pushed times. */
  function Reloads(last: string, times: seq<string>): seq<bool>
    decreases |times|
  {
    if times == [] then []
    else [LexLess(times[0], last)] + Reloads(times[0], times[1..])
  }

  /** Times pushed in increasing order (as a server's clock gives them)
      never reload, and the first push after loading never does. */
  lemma {:induction false} IncreasingTimesNeverReload(last: string, times: seq<string>)
    requires times != [] ==> !LexLess(times[0], last)
    requires forall k :: 0 < k < |times| ==> !LexLess(times[k], times[k - 1])
    ensures forall k :: 0 <= k < |Reloads(last, times)| ==> !Reloads(last, times)[k]
    ensures |Reloads(last, times)| == |times|
    decreases |times|
  {
    if times != [] {
      IncreasingTimesNeverReload(times[0], times[1..]);
    }
  }

  /** The first push never reloads; a repeated time never does either. */
  lemma FirstAndRepeatedTimes(t: string, u: string)
    ensures Reloads("", [t]) == [false]
    ensures Reloads(t, [t]) == [false]
    ensures Reloads(t, [u]) == [true] ==> Reloads(u, [t]) == [false]
  {
    NothingBelowEmpty(t);
    LexLessIrreflexive(t);
    if LexLess(u, t) {
      LexLessAsymmetric(u, t);
    }
  }
}
