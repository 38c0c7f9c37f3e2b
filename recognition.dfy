/**
 * What the bot does with the text the OpenAI chat model sends back: it
 * cuts out the part from the first `{` to the last `}` and hands it to
 * `json.loads`; for a photo it then turns the listed food items into
 * "name amount" strings, lower-cased, without empty or repeated names,
 * and keeps at most `max_items` of them.
 *
 * The model's reply is an input (`None` where the request raised), and
 * `json.loads` together with the dictionary lookups after it is a
 * function parameter that yields the decoded value or `None` where it
 * raises.
 */
module Recognition {
  import opened Wrappers
  import opened Text
  import opened Report

  // ---------------------------------------------------------------------
  // The brace slice

  /**
   * `content[content.find('{'):content.rfind('}') + 1]`, taken only when
   * `find` did not give -1 and `rfind(...) + 1` did not give 0.
   */
  function BraceSlice(content: string): Option<string>
  {
    var start := Find(content, '{');
    var end := RFind(content, '}') + 1;
    if start != -1 && end != 0 then Some(Slice(content, start, end)) else None
  }

  /** There is a slice exactly when the text holds both an opening and a closing brace. */
  lemma BraceSliceExists(content: string)
    ensures BraceSlice(content).Some? <==> '{' in content && '}' in content
  {
    if '{' in content {
      var i :| 0 <= i < |content| && content[i] == '{';
      assert Find(content, '{') != -1;
    }
    if '}' in content {
      var i :| 0 <= i < |content| && content[i] == '}';
      assert RFind(content, '}') != -1;
    }
  }

  /**
   * When the first `{` comes before the last `}`, the slice runs from the
   * one to the other, both included: it opens with `{`, closes with `}`,
   * and nothing before it holds a `{` and nothing after it a `}`.
   */
  lemma BraceSliceBounds(content: string)
    requires BraceSlice(content).Some?
    requires Find(content, '{') <= RFind(content, '}')
    ensures var i, j := Find(content, '{'), RFind(content, '}');
            && BraceSlice(content) == Some(content[i..j + 1])
            && '{' !in content[..i] && '}' !in content[j + 1..]
            && content[i..j + 1][0] == '{' && content[i..j + 1][j - i] == '}'
  {
    hide Find, RFind, Slice;
    var i, j := Find(content, '{'), RFind(content, '}');
    assert Slice(content, i, j + 1) == content[i..j + 1];
    assert forall k :: 0 <= k < i ==> content[..i][k] == content[k];
    assert forall k :: j + 1 <= k < |content| ==> content[j + 1..][k - j - 1] == content[k];
  }

  /**
   * A JSON object wrapped in text without braces comes out whole: this is
   * what the slice is for, an object inside a chatty reply.
   */
  lemma BraceSliceOfWrapped(before: string, body: string, after: string)
    requires '{' !in before && '}' !in after
    requires |body| >= 2 && body[0] == '{' && body[|body| - 1] == '}'
    ensures BraceSlice(before + body + after) == Some(body)
  {
    var s := before + body + after;
    var i, j := |before|, |before| + |body| - 1;
    assert forall k :: 0 <= k < i ==> s[k] == before[k];
    FindAt(s, '{', i);
    assert forall k :: j < k < |s| ==> s[k] == after[k - j - 1];
    assert RFind(s, '}') == j by {
      RFindAt(s, '}', j);
    }
    assert s[i..j + 1] == body;
  }

  /** The last index holding `c`, with none after it, is what `rfind` returns. */
  lemma RFindAt(s: string, c: char, j: int)
    requires 0 <= j < |s| && s[j] == c
    requires forall k :: j < k < |s| ==> s[k] != c
    ensures RFind(s, c) == j
  {
  }

  /**
   * When the last `}` comes before the first `{`, the slice is empty, which
   * `json.loads` refuses; `"} {"` is such an answer.
   */
  lemma BraceSliceReversed(content: string)
    ensures 0 <= RFind(content, '}') < Find(content, '{') ==> BraceSlice(content) == Some("")
    ensures BraceSlice("} {") == Some("")
  {
    var s := "} {";
    FindAt(s, '{', 2);
    RFindAt(s, '}', 0);
  }

  // ---------------------------------------------------------------------
  // get_food_info

  /** What `get_food_info` returns when it succeeds: the product's name and its five amounts. */
  datatype FoodInfo = FoodInfo(name: string, amounts: Nutrients)

  /**
   * `get_food_info`: `None` where the request raised, where the reply has
   * no braces, or where decoding the slice fails; otherwise the decoded
   * product.
   */
  function FoodInfoOf(reply: Option<string>, decode: string -> Option<FoodInfo>): Option<FoodInfo>
  {
    match reply
    case None => None
    case Some(content) =>
      match BraceSlice(Strip(content))
      case None => None
      case Some(json) => decode(json)
  }

  /** A product comes only from a reply holding both braces, decoded from its slice. */
  lemma FoodInfoNeedsBraces(reply: Option<string>, decode: string -> Option<FoodInfo>)
    requires FoodInfoOf(reply, decode).Some?
    ensures reply.Some? && '{' in Strip(reply.value) && '}' in Strip(reply.value)
    ensures FoodInfoOf(reply, decode) == decode(BraceSlice(Strip(reply.value)).value)
  {
    BraceSliceExists(Strip(reply.value));
  }

  // ---------------------------------------------------------------------
  // detect_food_in_photo: the item loop

  /** A value of an item's `"name"` or `"amount"` key: absent, a string, or some other JSON value. */
  datatype Field = Missing | Str(s: string) | NonStr

  /** One element of `food_items`: a dictionary with its two keys, or any other value and its `str()`. */
  datatype Item = Entry(name: Field, amount: Field) | Other(text: string)

  /** The decoded `food_items`: a list to loop over, or a value whose iteration raises. */
  datatype FoodItems = Listed(items: seq<Item>) | NotIterable

  /** A product the loop may keep: its normalised name and its amount. */
  datatype Product = Product(name: string, amount: string)

  const DefaultAmount: string := "1 порция"

  /** `.strip()` on a value that is not a string raises `AttributeError`. */
  predicate Raises(item: Item)
  {
    item.Entry? && (item.name.NonStr? || item.amount.NonStr?)
  }

  /**
   * The name and amount the loop body computes: `name.strip().lower()` and
   * `amount.strip()` with `""` and `"1 порция"` for missing keys, or
   * `str(item).strip().lower()` and `"1 порция"` for other values.
   */
  function Normalise(item: Item): Product
    requires !Raises(item)
  {
    match item
    case Entry(name, amount) =>
      Product(Lower(Strip(if name.Missing? then "" else name.s)),
              Strip(if amount.Missing? then DefaultAmount else amount.s))
    case Other(text) => Product(Lower(Strip(text)), DefaultAmount)
  }

  function Names(ps: seq<Product>): set<string>
  {
    set p | p in ps :: p.name
  }

  /**
   * The products the loop has collected after `items`, or `None` where one
   * of them raised (the whole call then returns `[]`).
   */
  function Collect(items: seq<Item>): Option<seq<Product>>
  {
    if |items| == 0 then Some([])
    else
      var last := items[|items| - 1];
      match Collect(items[..|items| - 1])
      case None => None
      case Some(ps) =>
        if Raises(last) then None
        else
          var p := Normalise(last);
          if p.name != "" && p.name !in Names(ps) then Some(ps + [p]) else Some(ps)
  }

  /** `f"{name} {amount}"`. */
  function Formatted(p: Product): string
  {
    p.name + " " + p.amount
  }

  function Entries(ps: seq<Product>): (r: seq<string>)
    ensures |r| == |ps|
  {
    seq(|ps|, i requires 0 <= i < |ps| => Formatted(ps[i]))
  }

  /** Python's `xs[:n]`: the first `n` elements, or all but the last `-n` when `n` is negative. */
  function PyPrefix<T>(xs: seq<T>, n: int): (r: seq<T>)
    ensures n >= 0 ==> |r| == if n < |xs| then n else |xs|
    ensures n < 0 ==> |r| == if |xs| + n > 0 then |xs| + n else 0
    ensures r == xs[..|r|]
  {
    if n >= 0 then (if n < |xs| then xs[..n] else xs)
    else (if |xs| + n > 0 then xs[..|xs| + n] else [])
  }

  /** `formatted_items[:max_items]`, or `[]` where the loop raised. */
  function DetectedEntries(items: seq<Item>, maxItems: int): seq<string>
  {
    match Collect(items)
    case None => []
    case Some(ps) => PyPrefix(Entries(ps), maxItems)
  }

  /**
   * `detect_food_in_photo`: `[]` where the request raised, the reply has no
   * braces, decoding fails or `food_items` cannot be iterated; otherwise
   * the formatted items.
   */
  function DetectFood(reply: Option<string>, decode: string -> Option<FoodItems>, maxItems: int): seq<string>
  {
    match reply
    case None => []
    case Some(content) =>
      match BraceSlice(Strip(content))
      case None => []
      case Some(json) =>
        match decode(json)
        case None => []
        case Some(NotIterable) => []
        case Some(Listed(items)) => DetectedEntries(items, maxItems)
  }

  /** The item loop: `seen_names` and `formatted_items`, with a raise ending the call with `[]`. */
  method FormatDetected(items: seq<Item>, maxItems: int) returns (result: seq<string>)
    ensures result == DetectedEntries(items, maxItems)
  {
    hide Lower, Strip, Collect;
    var formatted: seq<string> := [];
    var seen: set<string> := {};
    ghost var kept: seq<Product> := [];
    var i := 0;
    CollectNothing(items);
    while i < |items|
      invariant 0 <= i <= |items|
      invariant Collect(items[..i]) == Some(kept)
      invariant formatted == Entries(kept) && seen == Names(kept)
    {
      var item := items[i];
      var name: string, amount: string;
      match item {
        case Entry(n, a) =>
          if n.NonStr? || a.NonStr? {
            CollectStep(items, i);
            CollectNoneAfter(items, i + 1);
            return [];
          }
          name := Lower(Strip(if n.Missing? then "" else n.s));
          amount := Strip(if a.Missing? then DefaultAmount else a.s);
        case Other(text) =>
          name := Lower(Strip(text));
          amount := DefaultAmount;
      }
      assert Product(name, amount) == Normalise(item);
      CollectStep(items, i);
      i := i + 1;
      if name != "" && name !in seen {
        seen := seen + {name};
        formatted := formatted + [name + " " + amount];
        NamesSnoc(kept, Product(name, amount));
        kept := kept + [Product(name, amount)];
      }
    }
    assert items[..i] == items;
    result := PyPrefix(formatted, maxItems);
  }

  /** One more item: what `Collect` does with the next element of a prefix. */
  lemma CollectStep(items: seq<Item>, i: int)
    requires 0 <= i < |items|
    ensures Collect(items[..i]).None? ==> Collect(items[..i + 1]).None?
    ensures Collect(items[..i]).Some? && Raises(items[i]) ==> Collect(items[..i + 1]).None?
    ensures Collect(items[..i]).Some? && !Raises(items[i]) ==>
              if Normalise(items[i]).name != "" && Normalise(items[i]).name !in Names(Collect(items[..i]).value)
              then Collect(items[..i + 1]) == Some(Collect(items[..i]).value + [Normalise(items[i])])
              else Collect(items[..i + 1]) == Collect(items[..i])
  {
    assert items[..i + 1][..i] == items[..i];
  }

  lemma CollectNothing(items: seq<Item>)
    ensures Collect(items[..0]) == Some([])
  {
    assert items[..0] == [];
  }

  lemma NamesSnoc(ps: seq<Product>, p: Product)
    ensures Names(ps + [p]) == Names(ps) + {p.name}
  {
    assert forall q :: q in ps + [p] <==> q in ps || q == p;
  }

  /** `detect_food_in_photo` after the request: the brace slice, the decoding, then the item loop. */
  method DetectFoodInPhoto(reply: Option<string>, decode: string -> Option<FoodItems>, maxItems: int)
    returns (detected: seq<string>)
    ensures detected == DetectFood(reply, decode, maxItems)
  {
    hide Strip, Find, RFind, Slice, DetectedEntries;
    if reply.None? {
      return [];
    }
    var content := Strip(reply.value);
    var start := Find(content, '{');
    var end := RFind(content, '}') + 1;
    if start != -1 && end != 0 {
      var data := decode(Slice(content, start, end));
      if data.None? || data.value.NotIterable? {
        return [];
      }
      detected := FormatDetected(data.value.items, maxItems);
      return;
    }
    return [];
  }

  /** Once an item raised, no later item can undo it. */
  lemma {:induction false} CollectNoneAfter(items: seq<Item>, k: int)
    requires 0 <= k <= |items| && Collect(items[..k]) == None
    ensures Collect(items) == None
    decreases |items| - k
  {
    if k < |items| {
      CollectStep(items, k);
      CollectNoneAfter(items, k + 1);
    } else {
      assert items[..k] == items;
    }
  }

  // ---------------------------------------------------------------------
  // What the loop promises

  /** The kept names are distinct, non-empty, and each product is one item's normalised form. */
  lemma {:induction false} CollectSound(items: seq<Item>)
    requires Collect(items).Some?
    ensures var ps := Collect(items).value;
            && (forall i, j :: 0 <= i < j < |ps| ==> ps[i].name != ps[j].name)
            && (forall i :: 0 <= i < |ps| ==> ps[i].name != "")
            && (forall p :: p in ps ==> exists k :: 0 <= k < |items| && !Raises(items[k]) && Normalise(items[k]) == p)
  {
    hide Normalise, Lower, Strip;
    if |items| > 0 {
      var front := items[..|items| - 1];
      var last := items[|items| - 1];
      CollectSound(front);
      var ps := Collect(front).value;
      forall p | p in Collect(items).value
        ensures exists k :: 0 <= k < |items| && !Raises(items[k]) && Normalise(items[k]) == p
      {
        if p in ps {
          var k :| 0 <= k < |front| && !Raises(front[k]) && Normalise(front[k]) == p;
          assert items[k] == front[k];
        } else {
          assert items[|items| - 1] == last;
        }
      }
      var qs := Collect(items).value;
      if qs != ps {
        assert qs == ps + [Normalise(last)];
        forall i | 0 <= i < |ps|
          ensures ps[i].name != Normalise(last).name
        {
          assert ps[i] in ps;
        }
      }
    }
  }

  /** Every item with a non-empty name has that name among the kept ones: nothing is lost. */
  lemma {:induction false} CollectComplete(items: seq<Item>, k: int)
    requires Collect(items).Some? && 0 <= k < |items|
    ensures !Raises(items[k])
    ensures Normalise(items[k]).name != "" ==> Normalise(items[k]).name in Names(Collect(items).value)
  {
    hide Normalise;
    var front := items[..|items| - 1];
    var ps := Collect(front).value;
    if k < |items| - 1 {
      assert items[k] == front[k];
      CollectComplete(front, k);
      assert Names(ps) <= Names(Collect(items).value);
    } else {
      var p := Normalise(items[k]);
      if p.name != "" && p.name !in Names(ps) {
        assert p in Collect(items).value;
      }
    }
  }

  /**
   * A kept product comes from the first item carrying its name: later
   * duplicates, whatever their amount, are dropped.
   */
  lemma {:induction false} CollectKeepsFirst(items: seq<Item>, p: Product)
    requires Collect(items).Some? && p in Collect(items).value
    ensures exists k :: 0 <= k < |items| && !Raises(items[k]) && Normalise(items[k]) == p
                        && forall j :: 0 <= j < k ==> !Raises(items[j]) && Normalise(items[j]).name != p.name
  {
    hide Normalise;
    var front := items[..|items| - 1];
    var ps := Collect(front).value;
    if p in ps {
      CollectKeepsFirst(front, p);
      var k :| 0 <= k < |front| && !Raises(front[k]) && Normalise(front[k]) == p
               && forall j :: 0 <= j < k ==> !Raises(front[j]) && Normalise(front[j]).name != p.name;
      assert items[k] == front[k];
      forall j | 0 <= j < k
        ensures !Raises(items[j]) && Normalise(items[j]).name != p.name
      {
        assert items[j] == front[j];
      }
    } else {
      var k := |items| - 1;
      assert !Raises(items[k]) && p == Normalise(items[k]) && p.name !in Names(ps);
      forall j | 0 <= j < k
        ensures !Raises(items[j]) && Normalise(items[j]).name != p.name
      {
        assert items[j] == front[j];
        CollectComplete(front, j);
      }
    }
  }

  /** The item does not raise and its normalised name is `name`. */
  predicate NamedAs(item: Item, name: string)
  {
    !Raises(item) && Normalise(item).name == name
  }

  /** The index of the first item that does not raise and carries `name`, or `|items|` when none does. */
  function FirstNamed(items: seq<Item>, name: string): (k: nat)
    ensures k <= |items|
    ensures k < |items| ==> NamedAs(items[k], name)
    ensures forall j :: 0 <= j < k ==> !NamedAs(items[j], name)
  {
    if |items| == 0 then 0
    else
      var front := items[..|items| - 1];
      var k := FirstNamed(front, name);
      assert forall j :: 0 <= j < |front| ==> front[j] == items[j];
      if k < |front| then k
      else if NamedAs(items[|front|], name) then |front|
      else |items|
  }

  /**
   * The kept products follow the order in which their names first occur:
   * the loop appends, so `[:max_items]` keeps the names met first.
   */
  lemma {:induction false} CollectInOrder(items: seq<Item>)
    requires Collect(items).Some?
    ensures var ps := Collect(items).value;
            && (forall i :: 0 <= i < |ps| ==> FirstNamed(items, ps[i].name) < |items|)
            && (forall i, j :: 0 <= i < j < |ps| ==> FirstNamed(items, ps[i].name) < FirstNamed(items, ps[j].name))
  {
    hide Normalise, Lower, Strip;
    if |items| > 0 {
      var n := |items| - 1;
      var front, last := items[..n], items[n];
      CollectInOrder(front);
      var ps0, ps := Collect(front).value, Collect(items).value;
      forall name | FirstNamed(front, name) < n
        ensures FirstNamed(items, name) == FirstNamed(front, name)
      {
      }
      if ps != ps0 {
        var nm := Normalise(last).name;
        assert ps == ps0 + [Normalise(last)] && nm !in Names(ps0);
        forall k | 0 <= k < n
          ensures !NamedAs(front[k], nm)
        {
          if NamedAs(front[k], nm) {
            CollectComplete(front, k);
          }
        }
        assert FirstNamed(front, nm) == n;
        assert FirstNamed(items, nm) == n;
        forall i | 0 <= i < |ps0|
          ensures ps[i] == ps0[i]
        {
        }
      }
    }
  }

  /** A missing amount, or an item that is no dictionary, gets one portion. */
  lemma DefaultAmountApplies(name: Field, text: string)
    requires !name.NonStr?
    ensures Normalise(Entry(name, Missing)).amount == DefaultAmount
    ensures Normalise(Other(text)).amount == DefaultAmount
  {
    StripUnpadded(DefaultAmount);
  }

  /**
   * The result holds at most `max_items` entries (when that is not
   * negative), each `name + " " + amount` of a kept product, in order.
   */
  lemma DetectedEntriesShape(items: seq<Item>, maxItems: int)
    requires maxItems >= 0
    ensures |DetectedEntries(items, maxItems)| <= maxItems
    ensures Collect(items).Some? ==>
              forall i :: 0 <= i < |DetectedEntries(items, maxItems)| ==>
                DetectedEntries(items, maxItems)[i] == Collect(items).value[i].name + " " + Collect(items).value[i].amount
  {
  }

  /** One raising item anywhere empties the whole result. */
  lemma RaisingItemEmptiesResult(items: seq<Item>, k: int, maxItems: int)
    requires 0 <= k < |items| && Raises(items[k])
    ensures DetectedEntries(items, maxItems) == []
  {
    if Collect(items).Some? {
      CollectComplete(items, k);
    }
  }

  /**
   * The photo path returns nothing without a reply holding both braces,
   * and never more than `max_items` entries.
   */
  lemma DetectFoodBounds(reply: Option<string>, decode: string -> Option<FoodItems>, maxItems: int)
    ensures (reply.None? || '{' !in Strip(reply.value) || '}' !in Strip(reply.value)) ==> DetectFood(reply, decode, maxItems) == []
    ensures maxItems >= 0 ==> |DetectFood(reply, decode, maxItems)| <= maxItems
  {
    if reply.Some? {
      BraceSliceExists(Strip(reply.value));
      match BraceSlice(Strip(reply.value))
      case None =>
      case Some(json) =>
        match decode(json)
        case None =>
        case Some(NotIterable) =>
        case Some(Listed(items)) =>
          if maxItems >= 0 {
            DetectedEntriesShape(items, maxItems);
          }
    }
  }
}
