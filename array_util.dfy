/**
 * ArrayUtil.deepToString: "[" + the elements separated by ", " + "]", where a
 * null element is "null", an Object[] element is rendered the same way in
 * turn, and any other element by its toString. A primitive array element
 * cannot be cast to Object[] and fails.
 */
module ArrayUtil {
  import opened Wrappers

  /** The ClassCastException a primitive array element raises. */
  datatype CastError = ClassCast

  /** An element of an Object[]; Plain carries the text of its toString. */
  datatype Element = NullElement | ObjectArray(items: seq<Element>) | PrimitiveArray | Plain(text: seq<char>)

  /** How one element is rendered. */
  function RenderElement(e: Element): Result<seq<char>, CastError>
    decreases e, 1
  {
    match e
    case NullElement => Ok("null")
    case Plain(text) => Ok(text)
    case PrimitiveArray => Err(ClassCast)
    case ObjectArray(items) => Render(items)
  }

  /** The elements rendered and joined by ", ", the first failure if any. */
  function JoinElements(items: seq<Element>): Result<seq<char>, CastError>
    decreases items, 0
  {
    if |items| == 0 then Ok("")
    else
      match JoinElements(items[..|items| - 1])
      case Err(e) => Err(e)
      case Ok(prefix) =>
        match RenderElement(items[|items| - 1])
        case Err(e) => Err(e)
        case Ok(last) => Ok(prefix + (if |items| > 1 then ", " else "") + last)
  }

  /** deepToString of an array. */
  function Render(items: seq<Element>): Result<seq<char>, CastError>
    decreases items, 1
  {
    match JoinElements(items)
    case Err(e) => Err(e)
    case Ok(s) => Ok("[" + s + "]")
  }

  /** An element is or holds, at any depth, a primitive array. */
  predicate HasPrimitiveArray(e: Element) {
    match e
    case PrimitiveArray => true
    case ObjectArray(items) => exists i :: 0 <= i < |items| && HasPrimitiveArray(items[i])
    case _ => false
  }

  /** The total length of the elements' text when each renders. */
  function RenderedLength(items: seq<Element>): nat
    decreases items, 0
  {
    if |items| == 0 then 0
    else
      RenderedLength(items[..|items| - 1]) +
      match RenderElement(items[|items| - 1]) case Ok(s) => |s| case Err(_) => 0
  }

  // ---------------------------------------------------------------------
  // The loop
  // ---------------------------------------------------------------------

  /**
   * deepToString, as the loop that appends to a builder: each element in
   * turn, followed by ", " unless it is the last, then the closing bracket.
   */
  method DeepToString(arr: seq<Element>) returns (r: Result<seq<char>, CastError>)
    ensures r == Render(arr)
    decreases arr, 0
  {
    var builder := "[";
    var i := 0;
    while i < |arr|
      invariant 0 <= i <= |arr|
      invariant JoinElements(arr[..i]).Ok?
      invariant builder == "[" + JoinElements(arr[..i]).value + (if 0 < i < |arr| then ", " else "")
      decreases |arr| - i
    {
      var piece := RenderOne(arr[i]);
      if piece.Err? {
        JoinFails(arr, i);
        FailurePropagates(arr, i + 1);
        return Err(piece.error);
      }
      JoinStep(arr, i, piece.value);
      ghost var prefix := JoinElements(arr[..i]).value;
      builder := builder + piece.value;
      if i < |arr| - 1 {
        builder := builder + ", ";
      }
      BuilderStep(prefix, piece.value, i > 0, i < |arr| - 1);
      i := i + 1;
    }
    assert arr[..i] == arr;
    ghost var joined := JoinElements(arr).value;
    assert builder == "[" + joined + "" == "[" + joined;
    builder := builder + "]";
    assert Render(arr) == Ok("[" + joined + "]");
    return Ok(builder);
  }

  /**
   * One element as the loop body renders it: "null", a nested Object[] in
   * turn, the text of anything else; a primitive array fails the cast.
   */
  method RenderOne(e: Element) returns (r: Result<seq<char>, CastError>)
    ensures r == RenderElement(e)
    decreases e, 1
  {
    match e {
      case NullElement => r := Ok("null");
      case ObjectArray(items) => r := DeepToString(items);
      case PrimitiveArray => r := Err(ClassCast);
      case Plain(text) => r := Ok(text);
    }
  }

  /**
   * Proof step for the loop: regrouping the concatenation so that the builder
   * after one element reads as the bracket, the longer join and the next separator.
   */
  lemma BuilderStep(prefix: seq<char>, piece: seq<char>, before: bool, after: bool)
    ensures "[" + prefix + (if before then ", " else "") + piece + (if after then ", " else "")
      == "[" + (prefix + (if before then ", " else "") + piece) + (if after then ", " else "")
  {
  }

  // ---------------------------------------------------------------------
  // Properties
  // ---------------------------------------------------------------------

  /** One more element that renders extends the joined text by a separator and its text. */
  lemma JoinStep(items: seq<Element>, i: nat, piece: seq<char>)
    requires i < |items| && JoinElements(items[..i]).Ok? && RenderElement(items[i]) == Ok(piece)
    ensures JoinElements(items[..i + 1]) ==
      Ok(JoinElements(items[..i]).value + (if i > 0 then ", " else "") + piece)
  {
    assert items[..i + 1][..i] == items[..i];
  }

  /** An element that fails makes the prefix it ends fail with its error. */
  lemma JoinFails(items: seq<Element>, i: nat)
    requires i < |items| && JoinElements(items[..i]).Ok? && RenderElement(items[i]).Err?
    ensures JoinElements(items[..i + 1]) == Err(RenderElement(items[i]).error)
  {
    assert items[..i + 1][..i] == items[..i];
  }

  /** Once a prefix fails, the whole array fails the same way. */
  lemma {:induction false} FailurePropagates(items: seq<Element>, j: nat)
    requires j <= |items| && JoinElements(items[..j]).Err?
    ensures JoinElements(items) == JoinElements(items[..j])
    ensures Render(items) == Err(JoinElements(items[..j]).error)
    decreases |items|
  {
    if j < |items| {
      var init := items[..|items| - 1];
      assert init[..j] == items[..j];
      FailurePropagates(init, j);
    } else {
      assert items[..j] == items;
    }
  }

  /** A successful rendering starts with "[" and ends with "]"; no elements give "[]". */
  lemma Brackets(items: seq<Element>)
    ensures Render(items).Ok? ==>
      var s := Render(items).value;
      |s| >= 2 && s[0] == '[' && s[|s| - 1] == ']'
    ensures items == [] ==> Render(items) == Ok("[]")
  {
    assert "[" + "" + "]" == "[]";
    if Render(items).Ok? {
      var body := JoinElements(items).value;
      assert Render(items).value == "[" + body + "]";
      assert ("[" + body + "]")[0] == '[';
      assert ("[" + body + "]")[|body| + 1] == ']';
    }
  }

  /** Rendering fails exactly when a primitive array appears at some depth. */
  lemma {:induction false} FailsIffPrimitiveArray(items: seq<Element>)
    ensures JoinElements(items).Err? <==> exists i :: 0 <= i < |items| && HasPrimitiveArray(items[i])
    ensures Render(items).Err? <==> HasPrimitiveArray(ObjectArray(items))
    decreases items, 0
  {
    if |items| > 0 {
      var init := items[..|items| - 1];
      FailsIffPrimitiveArray(init);
      ElementFailsIffPrimitiveArray(items[|items| - 1]);
      assert forall i :: 0 <= i < |init| ==> init[i] == items[i];
      if exists i :: 0 <= i < |items| && HasPrimitiveArray(items[i]) {
        var i :| 0 <= i < |items| && HasPrimitiveArray(items[i]);
        if i < |init| {
          assert HasPrimitiveArray(init[i]);
        }
      }
    }
  }

  lemma {:induction false} ElementFailsIffPrimitiveArray(e: Element)
    ensures RenderElement(e).Err? <==> HasPrimitiveArray(e)
    decreases e, 1
  {
    if e.ObjectArray? {
      FailsIffPrimitiveArray(e.items);
    }
  }

  /**
   * The separators: n elements that all render give their texts plus two
   * brackets plus n - 1 separators of two characters each.
   */
  lemma {:induction false} RenderedLengthWithSeparators(items: seq<Element>)
    requires JoinElements(items).Ok?
    ensures |JoinElements(items).value| == RenderedLength(items) + (if |items| > 0 then 2 * (|items| - 1) else 0)
    ensures |items| > 0 ==> |Render(items).value| == RenderedLength(items) + 2 * |items|
  {
    if |items| > 0 {
      RenderedLengthWithSeparators(items[..|items| - 1]);
    }
  }

  /** A null element renders as "null". */
  lemma NullRendersAsNull()
    ensures Render([NullElement]) == Ok("[null]")
    ensures Render([Plain("a"), NullElement]) == Ok("[a, null]")
  {
    assert [NullElement][..0] == [];
    assert "" + "" + "null" == "null";
    assert JoinElements([NullElement]) == Ok("null");
    assert "[" + "null" + "]" == "[null]";
    assert [Plain("a"), NullElement][..1] == [Plain("a")];
    assert [Plain("a")][..0] == [];
    assert "" + "" + "a" == "a";
    assert JoinElements([Plain("a")]) == Ok("a");
    assert "a" + ", " + "null" == "a, null";
    assert JoinElements([Plain("a"), NullElement]) == Ok("a, null");
    assert "[" + "a, null" + "]" == "[a, null]";
  }

  /** Two plain elements. */
  lemma TwoPlain(a: seq<char>, b: seq<char>)
    ensures Render([Plain(a), Plain(b)]) == Ok("[" + (a + ", " + b) + "]")
  {
    var items := [Plain(a), Plain(b)];
    assert items[..0] == [];
    JoinStep(items, 0, a);
    assert "" + "" + a == a;
    JoinStep(items, 1, b);
    assert items[..2] == items;
  }

  /**
   * A nested array is rendered in the same format, in place: two elements,
   * an array of two, and one more.
   */
  lemma NestedArray(a: seq<char>, b: seq<char>, c: seq<char>, d: seq<char>, e: seq<char>)
    ensures Render([Plain(a), Plain(b), ObjectArray([Plain(c), Plain(d)]), Plain(e)])
      == Ok("[" + (a + ", " + b + ", " + ("[" + (c + ", " + d) + "]") + ", " + e) + "]")
  {
    var items := [Plain(a), Plain(b), ObjectArray([Plain(c), Plain(d)]), Plain(e)];
    var sub := "[" + (c + ", " + d) + "]";
    TwoPlain(c, d);
    assert items[..0] == [];
    JoinStep(items, 0, a);
    assert "" + "" + a == a;
    JoinStep(items, 1, b);
    JoinStep(items, 2, sub);
    JoinStep(items, 3, e);
    assert items[..4] == items;
  }
}
