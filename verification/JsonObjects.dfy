/** agent/core_agent/default_actions.go, StreamJSONArrayObjects, on JSON: every JSON object (section 4 of RFC 8259)
    is one of the brace-balanced objects that the byte loop tells apart, so arrays of JSON objects are
    split into them. */
module JsonObjects {
  import opened GoStrings
  import opened JsonArray
  import opened JsoncDocuments

  predicate IsObject(v: Value) {
    (v.Empty? || v.Filled?) && v.isObject
  }

  /** Bytes that the scanner passes without a change of state. */
  predicate Unmarked(t: string) {
    forall i :: 0 <= i < |t| ==> t[i] != '"' && t[i] != '{' && t[i] != '}'
  }

  function Bytes(t: string, rest: Body): Body {
    if t == "" then rest else JsonArray.Plain(t[0], Bytes(t[1..], rest))
  }

  lemma {:induction false} BytesText(t: string, rest: Body)
    requires Unmarked(t) && WellFormed(rest)
    ensures WellFormed(Bytes(t, rest)) && Text(Bytes(t, rest)) == t + Text(rest)
    decreases |t|
  {
    if t == "" {
      assert t + Text(rest) == Text(rest);
    } else {
      BytesText(t[1..], rest);
      assert [t[0]] + t[1..] == t;
      Assoc([t[0]], t[1..], Text(rest));
    }
  }

  lemma {:induction false} SpacesUnmarked(ps: seq<Piece>)
    requires GoodPieces(ps) && AllSpaces(ps)
    ensures Unmarked(Pieces(ps).full)
    decreases |ps|
  {
    if ps != [] {
      assert GoodPiece(ps[0]) && ps[0].Space?;
      SpacesUnmarked(ps[1..]);
    }
  }

  function Spaced(ps: seq<Piece>, rest: Body): Body {
    Bytes(Pieces(ps).full, rest)
  }

  lemma SpacedText(ps: seq<Piece>, rest: Body)
    requires GoodPieces(ps) && AllSpaces(ps) && WellFormed(rest)
    ensures WellFormed(Spaced(ps, rest)) && Text(Spaced(ps, rest)) == Pieces(ps).full + Text(rest)
  {
    SpacesUnmarked(ps);
    BytesText(Pieces(ps).full, rest);
  }

  /** A value, and what follows it up to the end of the object around it. */
  function ValueBody(v: Value, rest: Body): Body
    decreases v
  {
    match v
    case Scalar(text) => Bytes(text, rest)
    case Str(chars) => Literal(chars, rest)
    case Empty(isObject, inside) =>
      if isObject then Nested(Spaced(inside, Close), rest)
      else JsonArray.Plain('[', Spaced(inside, JsonArray.Plain(']', rest)))
    case Filled(isObject, items, _) =>
      if isObject then Nested(ItemsBody(true, items, Close), rest)
      else JsonArray.Plain('[', ItemsBody(false, items, JsonArray.Plain(']', rest)))
  }

  function ItemsBody(isObject: bool, items: Items, rest: Body): Body
    decreases items
  {
    if items.One? then ItemBody(isObject, items.item, rest)
    else ItemBody(isObject, items.item, JsonArray.Plain(',', ItemsBody(isObject, items.rest, rest)))
  }

  function ItemBody(isObject: bool, i: Item, rest: Body): Body
    decreases i
  {
    var value := ValueBody(i.value, Spaced(i.after, rest));
    Spaced(i.before,
           if isObject then Literal(i.key, Spaced(i.afterKey, JsonArray.Plain(':', Spaced(i.beforeValue, value))))
           else value)
  }

  /** The body spells the value. */
  ghost predicate Spells(b: Body, t: string, rest: Body) {
    WellFormed(b) && Text(b) == t + Text(rest)
  }

  lemma {:induction false} ValueSpelled(v: Value, rest: Body)
    requires Good(v) && IsPlain(v) && WellFormed(rest)
    ensures Spells(ValueBody(v, rest), Render(v).full, rest)
    decreases v
  {
    hide GoodPieces, AllSpaces, Pieces, Bytes, Spaced;
    match v
    case Scalar(text) =>
      BytesText(text, rest);
    case Str(chars) =>
      QuoteText(chars, Text(rest));
    case Empty(isObject, inside) =>
      var close := if isObject then Close else JsonArray.Plain(']', rest);
      SpacedText(inside, close);
      Bracketed(isObject, Spaced(inside, close), Pieces(inside).full, rest);
    case Filled(isObject, items, trailing) =>
      var close := if isObject then Close else JsonArray.Plain(']', rest);
      ItemsSpelled(isObject, items, close);
      Bracketed(isObject, ItemsBody(isObject, items, close), RenderItems(isObject, items).full, rest);
      assert "" + CloseOf(isObject).full == CloseOf(isObject).full;
  }

  lemma QuoteText(chars: seq<StringChar>, rest: string)
    ensures "\"" + (CharsText(chars) + ("\"" + rest)) == Quote(chars).full + rest
  {
  }

  /** Brackets around what is inside; an object's closing brace ends its body. */
  lemma Bracketed(isObject: bool, inside: Body, t: string, rest: Body)
    requires WellFormed(rest) && Spells(inside, t, if isObject then Close else JsonArray.Plain(']', rest))
    ensures Spells(if isObject then Nested(inside, rest) else JsonArray.Plain('[', inside),
                   OpenOf(isObject).full + (t + CloseOf(isObject).full), rest)
  {
    if isObject {
      Assoc("{", t + "}", Text(rest));
    } else {
      Assoc(t, "]", Text(rest));
      Assoc("[", t + "]", Text(rest));
    }
  }

  lemma {:induction false} ItemsSpelled(isObject: bool, items: Items, rest: Body)
    requires GoodItems(isObject, items) && ArePlain(items) && WellFormed(rest)
    ensures Spells(ItemsBody(isObject, items, rest), RenderItems(isObject, items).full, rest)
    decreases items, 1
  {
    hide GoodItem, GoodPieces, AllSpaces, IsPlain, ItemBody, RenderItem;
    PlainItemFirst(items);
    if items.One? {
      ItemSpelled(isObject, items.item, rest);
    } else {
      var more := ItemsBody(isObject, items.rest, rest);
      ItemsSpelled(isObject, items.rest, rest);
      ItemSpelled(isObject, items.item, JsonArray.Plain(',', more));
      var a, b := RenderItem(isObject, items.item).full, RenderItems(isObject, items.rest).full;
      assert a + ("," + (b + Text(rest))) == (a + ("," + b)) + Text(rest);
    }
  }

  predicate PlainItemAlone(i: Item) {
    AllSpaces(i.before) && AllSpaces(i.afterKey) && AllSpaces(i.beforeValue) && IsPlain(i.value) && AllSpaces(i.after)
  }

  lemma PlainItemFirst(items: Items)
    requires ArePlain(items)
    ensures PlainItemAlone(items.item)
  {
  }

  lemma {:induction false} ItemSpelled(isObject: bool, i: Item, rest: Body)
    requires GoodItem(isObject, i) && PlainItemAlone(i) && WellFormed(rest)
    ensures Spells(ItemBody(isObject, i, rest), RenderItem(isObject, i).full, rest)
    decreases i, 0
  {
    hide GoodPieces, AllSpaces, Pieces, Good, IsPlain, Render, ValueBody, Spaced, Chars, Quote;
    SpacedText(i.after, rest);
    var after := Spaced(i.after, rest);
    ValueSpelled(i.value, after);
    var value := ValueBody(i.value, after);
    var v, e := Render(i.value).full, Pieces(i.after).full;
    if isObject {
      KeySpelled(i, value);
      var keyed := Literal(i.key, Spaced(i.afterKey, JsonArray.Plain(':', Spaced(i.beforeValue, value))));
      SpacedText(i.before, keyed);
      Flatten(Pieces(i.before).full, Key(i).full, v, e, Text(rest));
    } else {
      SpacedText(i.before, value);
      assert "" + (v + e) == v + e;
      Flatten(Pieces(i.before).full, "", v, e, Text(rest));
      assert "" + (v + (e + Text(rest))) == v + (e + Text(rest));
    }
  }

  lemma Flatten(b: string, k: string, v: string, e: string, r: string)
    ensures b + (k + (v + (e + r))) == (b + (k + (v + e))) + r
  {
  }

  lemma KeySpelled(i: Item, value: Body)
    requires Chars(i.key) && GoodPieces(i.afterKey) && GoodPieces(i.beforeValue) && AllSpaces(i.afterKey)
    requires AllSpaces(i.beforeValue)
    requires WellFormed(value)
    ensures Spells(Literal(i.key, Spaced(i.afterKey, JsonArray.Plain(':', Spaced(i.beforeValue, value)))), Key(i).full,
                   value)
  {
    hide GoodPieces, AllSpaces, Pieces, Spaced;
    SpacedText(i.beforeValue, value);
    var colon := JsonArray.Plain(':', Spaced(i.beforeValue, value));
    SpacedText(i.afterKey, colon);
    var a, b := Pieces(i.afterKey).full, Pieces(i.beforeValue).full;
    QuoteText(i.key, a + (":" + (b + Text(value))));
    Flatten(Quote(i.key).full, a, ":", b, Text(value));
  }

  /** Every JSON object is an object for the splitter. */
  lemma ObjectOf(v: Value) returns (b: Body)
    requires Good(v) && IsPlain(v) && IsObject(v)
    ensures WellFormed(b) && Object(b) == Render(v).full
  {
    hide Pieces, RenderItems;
    ValueSpelled(v, Close);
    b := ValueBody(v, Close).inner;
    assert "{" + (Text(b) + "}") == ("{" + Text(b)) + "}";
    var t, u := Render(v).full, "{" + Text(b);
    assert t + "}" == u + "}";
    assert t == (t + "}")[..|t|] && u == (u + "}")[..|u|];
  }

  lemma {:induction false} ObjectsOf(objects: seq<Value>) returns (bodies: seq<Body>)
    requires forall i :: 0 <= i < |objects| ==> Good(objects[i]) && IsPlain(objects[i]) && IsObject(objects[i])
    ensures |bodies| == |objects|
    ensures forall i :: 0 <= i < |bodies| ==> WellFormed(bodies[i]) && Object(bodies[i]) == Render(objects[i]).full
    decreases |objects|
  {
    if objects == [] {
      bodies := [];
    } else {
      var first := ObjectOf(objects[0]);
      var rest := ObjectsOf(objects[1..]);
      bodies := [first] + rest;
    }
  }

  lemma {:induction false} DeliveredIs(bodies: seq<Body>)
    ensures |Delivered(bodies)| == |bodies|
    ensures forall i :: 0 <= i < |bodies| ==> Delivered(bodies)[i] == Pipe(Object(bodies[i]), true)
    decreases |bodies|
  {
    if bodies != [] {
      DeliveredIs(bodies[1..]);
    }
  }

  /** An array of JSON objects is split into exactly the texts of its objects. */
  lemma JsonArraysAreSplit(pre: string, seps: seq<string>, objects: seq<Value>, tail: string, accept: nat -> bool,
                           end: End, together: bool)
    returns (bodies: seq<Body>, o: Outcome)
    requires AllWhitespace(pre) && |seps| == |objects| + 1 && forall i :: 0 <= i < |seps| ==> AllSeparators(seps[i])
    requires forall i ::
               0 <= i < |objects| ==> accept(i) && Good(objects[i]) && IsPlain(objects[i]) && IsObject(objects[i])
    ensures |bodies| == |objects| && forall i :: 0 <= i < |bodies| ==> Object(bodies[i]) == Render(objects[i]).full
    ensures o == Before(pre + ("[" + (Weave(seps, bodies) + ("]" + tail))), accept, end, together)
    ensures o.result == Nil && |o.items| == |objects|
    ensures forall i :: 0 <= i < |objects| ==> o.items[i] == Pipe(Render(objects[i]).full, true)
  {
    hide Before, Weave, Good, IsPlain, IsObject, Render;
    bodies := ObjectsOf(objects);
    SplitUndoesJoin(pre, seps, bodies, tail, accept, end, together);
    DeliveredIs(bodies);
    o := Before(pre + ("[" + (Weave(seps, bodies) + ("]" + tail))), accept, end, together);
  }
}
