/** Trimming and expanding compaction items (internal/domain/compaction.go, internal/compactor/compactor.go). */
module CompactionItems {
  import opened Wrappers
  import opened Text
  import opened GoQuote
  import opened JsonQuote
  import opened CompactionState
  import opened CompactionSections

  /** A stored raw item, or what is not an item at all. */
  datatype Raw = Valid(item: Item) | Malformed

  datatype Body =
    | Nothing
    | Message(role: string, text: string)
    | Other(kind: string, content: string)
    | Compaction(sealed: Option<Payload<Raw>>)

  datatype Item = Item(id: string, body: Body) {
    predicate IsCompaction() { body.Compaction? }

    /** An id is only given to an item that has none. */
    function WithId(newId: string): Item {
      if TrimSpace(id) != "" then this else this.(id := newId)
    }
  }

  predicate NoCompaction(items: seq<Item>) {
    forall k :: 0 <= k < |items| ==> !items[k].IsCompaction()
  }

  // ---------------------------------------------------------------- trimming

  /** The index of the last compaction item, or -1. */
  function LastCompaction(items: seq<Item>): (r: int)
    ensures -1 <= r < |items|
    ensures r >= 0 ==> items[r].IsCompaction()
    ensures forall k :: r < k < |items| ==> !items[k].IsCompaction()
  {
    if items == [] then -1
    else if items[|items| - 1].IsCompaction() then |items| - 1
    else LastCompaction(items[..|items| - 1])
  }

  function Trim(items: seq<Item>): seq<Item> {
    if LastCompaction(items) <= 0 then items else items[LastCompaction(items)..]
  }

  method TrimItemsBeforeLatestCompaction(items: seq<Item>) returns (out: seq<Item>)
    ensures out == Trim(items)
  {
    if |items| == 0 {
      return [];
    }
    var lastCompaction := -1;
    for idx := 0 to |items|
      invariant lastCompaction == LastCompaction(items[..idx])
    {
      assert items[..idx + 1][..idx] == items[..idx];
      if items[idx].IsCompaction() {
        lastCompaction := idx;
      }
    }
    assert items[..|items|] == items;
    if lastCompaction <= 0 {
      return items;
    }
    return items[lastCompaction..];
  }

  /** No compaction item but possibly the first. */
  predicate OnlyAtHead(items: seq<Item>) {
    forall k :: 1 <= k < |items| ==> !items[k].IsCompaction()
  }

  /** Trimming gives the longest suffix that has a compaction at most at its head. */
  lemma TrimIsLongestSuffix(items: seq<Item>, n: nat)
    requires n <= |items|
    ensures OnlyAtHead(Trim(items))
    ensures |Trim(items)| <= |items| && Trim(items) == items[|items| - |Trim(items)|..]
    ensures OnlyAtHead(items[n..]) ==> |items| - n <= |Trim(items)|
  {
    var r := LastCompaction(items);
    if r > n {
      assert items[n..][r - n].IsCompaction();
    }
  }

  lemma TrimTwice(items: seq<Item>)
    ensures Trim(Trim(items)) == Trim(items)
  {
    TrimIsLongestSuffix(items, 0);
    HeadIsLast(Trim(items));
  }

  lemma HeadIsLast(items: seq<Item>)
    requires OnlyAtHead(items)
    ensures LastCompaction(items) <= 0
  {
  }

  /** Once a compaction has come, nothing before it matters. */
  lemma TrimForgets(a: seq<Item>, b: seq<Item>)
    requires !NoCompaction(b)
    ensures Trim(a + b) == Trim(b)
  {
    var k :| 0 <= k < |b| && b[k].IsCompaction();
    var r, s := LastCompaction(a + b), LastCompaction(b);
    assert (a + b)[|a| + s] == b[s] && (a + b)[|a| + k] == b[k];
    assert r >= |a| + s;
    assert r < |a + b| && (a + b)[r] == b[r - |a|];
    assert r == |a| + s;
    assert s == 0 ==> b[0..] == b;
    assert (a + b)[r..] == b[s..];
  }

  // ---------------------------------------------------------------- expanding

  /** The retained items, unless one of them is malformed. */
  function Opened(raws: seq<Raw>): Option<seq<Item>> {
    if raws == [] then Some([])
    else
      var n := |raws| - 1;
      var before := Opened(raws[..n]);
      if before.None? || raws[n].Malformed? then None else Some(before.value + [raws[n].item])
  }

  /** The message with a text; where the quoted text is no JSON, the error is dropped and the item is empty. */
  function InputTextMessage(prints: char -> bool, role: string, text: string): Item {
    match (JsonRead(QuoteBody(prints, role)), JsonRead(QuoteBody(prints, text)))
    case (Some(r), Some(t)) => Item("", Message(r, t))
    case _ => Item("", Nothing)
  }

  lemma SystemMessage(prints: char -> bool, text: string)
    ensures InputTextMessage(prints, "system", text) ==
            Item("", if AllShared(prints, text) then Message("system", text) else Nothing)
  {
    JsonReadsIff(prints, text);
    AsciiShared(prints, "system");
    JsonReadsIff(prints, "system");
  }

  lemma AsciiShared(prints: char -> bool, text: string)
    requires forall i :: 0 <= i < |text| ==> ' ' <= text[i] <= '~'
    ensures AllShared(prints, text)
  {
  }

  function ExpandPayload(prints: char -> bool, p: Payload<Raw>): (r: Option<seq<Item>>)
    ensures r.Some? ==> r.value != []
  {
    var retained := Opened(p.retained);
    if retained.None? then None else Some([InputTextMessage(prints, "system", Render(p))] + retained.value)
  }

  method ExpandedPayload(prints: char -> bool, p: Payload<Raw>) returns (r: Option<seq<Item>>)
    ensures r == ExpandPayload(prints, p)
  {
    r := WithRetained([InputTextMessage(prints, "system", Render(p))], p.retained);
  }

  method WithRetained(head: seq<Item>, raws: seq<Raw>) returns (r: Option<seq<Item>>)
    ensures r == Append(Some(head), Opened(raws))
  {
    var items := head;
    for k := 0 to |raws|
      invariant Opened(raws[..k]).Some?
      invariant items == head + Opened(raws[..k]).value
    {
      assert raws[..k + 1][..k] == raws[..k];
      if raws[k].Malformed? {
        OpenedFails(raws, k);
        return None;
      }
      items := items + [raws[k].item];
    }
    assert raws[..|raws|] == raws;
    return Some(items);
  }

  lemma {:induction false} OpenedFails(raws: seq<Raw>, k: nat)
    requires k < |raws| && raws[k].Malformed?
    ensures Opened(raws).None?
    decreases raws
  {
    var n := |raws| - 1;
    if k < n {
      OpenedFails(raws[..n], k);
    }
  }

  lemma {:induction false} OpenedSize(raws: seq<Raw>)
    ensures Opened(raws).Some? ==> |Opened(raws).value| == |raws|
    decreases raws
  {
    if raws != [] {
      OpenedSize(raws[..|raws| - 1]);
    }
  }

  /** The first item gets the compaction's id, if that is not blank. */
  function Named(items: seq<Item>, id: string): seq<Item>
    requires items != []
  {
    if id == "" then items else items[0 := items[0].WithId(id)]
  }

  /** What one item becomes. */
  function ExpandOne(prints: char -> bool, item: Item): Option<seq<Item>> {
    if !item.IsCompaction() then Some([item])
    else
      var payload := Decode(item.body.sealed);
      if payload.None? then None
      else
        var expanded := ExpandPayload(prints, payload.value);
        if expanded.None? then None else Some(Named(expanded.value, TrimSpace(item.id)))
  }

  function Append(a: Option<seq<Item>>, b: Option<seq<Item>>): Option<seq<Item>> {
    if a.None? || b.None? then None else Some(a.value + b.value)
  }

  /** Replace each item by what `f` makes of it; one failure fails all. */
  function Replace(f: Item -> Option<seq<Item>>, items: seq<Item>): Option<seq<Item>> {
    if items == [] then Some([])
    else Append(Replace(f, items[..|items| - 1]), f(items[|items| - 1]))
  }

  function Expander(prints: char -> bool): Item -> Option<seq<Item>> {
    (item: Item) => ExpandOne(prints, item)
  }

  function Expand(prints: char -> bool, items: seq<Item>): Option<seq<Item>> {
    Replace(Expander(prints), items)
  }

  method ExpandSyntheticCompactionItems(prints: char -> bool, items: seq<Item>) returns (r: Option<seq<Item>>)
    ensures r == Expand(prints, items)
  {
    var out: seq<Item> := [];
    for k := 0 to |items|
      invariant Expand(prints, items[..k]) == Some(out)
    {
      assert items[..k + 1][..k] == items[..k];
      var item := items[k];
      if !item.IsCompaction() {
        out := out + [item];
        continue;
      }
      var expanded := ExpandedItem(prints, item);
      if expanded.None? {
        ReplaceFails(Expander(prints), items, k);
        return None;
      }
      out := out + expanded.value;
    }
    assert items[..|items|] == items;
    return Some(out);
  }

  method ExpandedItem(prints: char -> bool, item: Item) returns (r: Option<seq<Item>>)
    requires item.IsCompaction()
    ensures r == ExpandOne(prints, item)
  {
    var payload := Decode(item.body.sealed);
    if payload.None? {
      return None;
    }
    r := ExpandedPayload(prints, payload.value);
    if r.None? {
      return None;
    }
    var id := TrimSpace(item.id);
    if id != "" {
      r := Some(r.value[0 := r.value[0].WithId(id)]);
    }
  }

  lemma {:induction false} ReplaceFails(f: Item -> Option<seq<Item>>, items: seq<Item>, k: nat)
    requires k < |items| && f(items[k]).None?
    ensures Replace(f, items).None?
    decreases items
  {
    var n := |items| - 1;
    if k < n {
      ReplaceFails(f, items[..n], k);
    }
  }

  lemma {:induction false} ReplaceConcat(f: Item -> Option<seq<Item>>, a: seq<Item>, b: seq<Item>)
    ensures Replace(f, a + b) == Append(Replace(f, a), Replace(f, b))
    decreases b
  {
    if b == [] {
      assert a + b == a;
      assert Replace(f, a).Some? ==> Replace(f, a).value + [] == Replace(f, a).value;
    } else {
      var n := |b| - 1;
      assert (a + b)[..|a| + n] == a + b[..n];
      ReplaceConcat(f, a, b[..n]);
      AppendAssociative(Replace(f, a), Replace(f, b[..n]), f(b[n]));
    }
  }

  /** Expansion distributes over concatenation, errors included. */
  lemma ExpandConcat(prints: char -> bool, a: seq<Item>, b: seq<Item>)
    ensures Expand(prints, a + b) == Append(Expand(prints, a), Expand(prints, b))
  {
    ReplaceConcat(Expander(prints), a, b);
  }

  lemma AppendAssociative(a: Option<seq<Item>>, b: Option<seq<Item>>, c: Option<seq<Item>>)
    ensures Append(Append(a, b), c) == Append(a, Append(b, c))
  {
    if a.Some? && b.Some? && c.Some? {
      assert a.value + b.value + c.value == a.value + (b.value + c.value);
    }
  }

  /** Every compaction item can be opened: it decodes and all it retains is well formed. */
  predicate IsReadable(item: Item) {
    item.IsCompaction() ==>
      && Decode(item.body.sealed).Some?
      && forall k :: 0 <= k < |Decode(item.body.sealed).value.retained| ==>
         Decode(item.body.sealed).value.retained[k].Valid?
  }

  lemma {:induction false} OpenedIff(raws: seq<Raw>)
    ensures Opened(raws).Some? <==> forall k :: 0 <= k < |raws| ==> raws[k].Valid?
    decreases raws
  {
    if raws != [] {
      var n := |raws| - 1;
      OpenedIff(raws[..n]);
      assert raws == raws[..n] + [raws[n]];
    }
  }

  lemma ReadableIff(prints: char -> bool, item: Item)
    ensures ExpandOne(prints, item).Some? <==> IsReadable(item)
  {
    if item.IsCompaction() && Decode(item.body.sealed).Some? {
      OpenedIff(Decode(item.body.sealed).value.retained);
    }
  }

  lemma {:induction false} ReplaceIff(f: Item -> Option<seq<Item>>, items: seq<Item>)
    ensures Replace(f, items).Some? <==> forall k :: 0 <= k < |items| ==> f(items[k]).Some?
    decreases items
  {
    if items != [] {
      var n := |items| - 1;
      ReplaceIff(f, items[..n]);
      assert items == items[..n] + [items[n]];
    }
  }

  /** Expansion succeeds exactly when every compaction item is readable. */
  lemma ExpandsIff(prints: char -> bool, items: seq<Item>)
    ensures Expand(prints, items).Some? <==> forall k :: 0 <= k < |items| ==> IsReadable(items[k])
  {
    ReplaceIff(Expander(prints), items);
    forall k | 0 <= k < |items| ensures ExpandOne(prints, items[k]).Some? <==> IsReadable(items[k]) {
      ReadableIff(prints, items[k]);
    }
  }

  lemma {:induction false} ReplaceNothing(f: Item -> Option<seq<Item>>, items: seq<Item>)
    requires forall k :: 0 <= k < |items| ==> f(items[k]) == Some([items[k]])
    ensures Replace(f, items) == Some(items)
    decreases items
  {
    if items != [] {
      var n := |items| - 1;
      var before := items[..n];
      forall k | 0 <= k < |before| ensures f(before[k]) == Some([before[k]]) { assert before[k] == items[k]; }
      ReplaceNothing(f, before);
      assert items == before + [items[n]];
    }
  }

  lemma ExpandPlain(prints: char -> bool, items: seq<Item>)
    requires NoCompaction(items)
    ensures Expand(prints, items) == Some(items)
  {
    ReplaceNothing(Expander(prints), items);
  }

  // ---------------------------------------------------------------- order

  function Plain(items: seq<Item>): seq<Item> {
    if items == [] then []
    else
      var n := |items| - 1;
      Plain(items[..n]) + if items[n].IsCompaction() then [] else [items[n]]
  }

  /** `xs` is `ys` with some elements left out. */
  predicate Subsequence<T(==)>(xs: seq<T>, ys: seq<T>)
    decreases ys
  {
    if ys == [] then xs == []
    else
      var n := |ys| - 1;
      || Subsequence(xs, ys[..n])
      || (xs != [] && xs[|xs| - 1] == ys[n] && Subsequence(xs[..|xs| - 1], ys[..n]))
  }

  lemma {:induction false} SubsequenceMore<T>(xs: seq<T>, ys: seq<T>, zs: seq<T>)
    requires Subsequence(xs, ys)
    ensures Subsequence(xs, ys + zs)
    decreases zs
  {
    if zs == [] {
      assert ys + zs == ys;
    } else {
      var n := |zs| - 1;
      SubsequenceMore(xs, ys, zs[..n]);
      assert (ys + zs)[..|ys| + n] == ys + zs[..n];
    }
  }

  ghost predicate KeepsPlain(f: Item -> Option<seq<Item>>) {
    forall item: Item :: !item.IsCompaction() ==> f(item) == Some([item])
  }

  lemma {:induction false} ReplaceSurvive(f: Item -> Option<seq<Item>>, items: seq<Item>)
    requires KeepsPlain(f) && Replace(f, items).Some?
    ensures Subsequence(Plain(items), Replace(f, items).value)
    decreases items
  {
    if items != [] {
      var n := |items| - 1;
      ReplaceSurvive(f, items[..n]);
      var before, last := Replace(f, items[..n]).value, f(items[n]).value;
      if items[n].IsCompaction() {
        SubsequenceMore(Plain(items[..n]), before, last);
        assert Plain(items) == Plain(items[..n]) && Replace(f, items).value == before + last;
      } else {
        assert (before + last)[..|before|] == before;
        assert Plain(items)[..|Plain(items)| - 1] == Plain(items[..n]);
      }
    }
  }

  /** The items that are no compactions all survive expansion, in their order. */
  lemma PlainSurvive(prints: char -> bool, items: seq<Item>)
    requires Expand(prints, items).Some?
    ensures Subsequence(Plain(items), Expand(prints, items).value)
  {
    ReplaceSurvive(Expander(prints), items);
  }

  // ---------------------------------------------------------------- structured results

  datatype Result = Result(item: Item, output: seq<Item>, expanded: seq<Item>)

  const MODE := "model_assisted_text"

  /** The item without any JSON behind it, which is written as `null`. */
  predicate IsNull(item: Item) {
    item == Item("", Nothing)
  }

  predicate NoNull(items: seq<Item>) {
    forall k :: 0 <= k < |items| ==> !IsNull(items[k])
  }

  /** What is written for each item; `null` is no item when it is read again. */
  function AsRaw(items: seq<Item>): seq<Raw> {
    seq(|items|, k requires 0 <= k < |items| => if IsNull(items[k]) then Malformed else Valid(items[k]))
  }

  function CompactionItem(id: string, summary: string, itemCount: int, mode: string, state: State,
                          retained: seq<Item>): Item {
    Item(id, Compaction(Some(Encode(summary, itemCount, mode, state, AsRaw(retained)))))
  }

  function RetainRecent(items: seq<Item>, limit: int): (r: seq<Item>)
    ensures |r| <= |items| && r == items[|items| - |r|..]
    ensures |r| == if limit <= 0 then 0 else if limit < |items| then limit else |items|
  {
    if limit <= 0 || items == [] then []
    else items[(if |items| - limit < 0 then 0 else |items| - limit)..]
  }

  function ResultSummary(state: State): string {
    if TrimSpace(state.summary) == "" then "Prior context was compacted." else TrimSpace(state.summary)
  }

  /** The two ids are the fresh ones the two compaction items get; the second is unused when nothing is retained. */
  function Structured(prints: char -> bool, state: State, itemCount: int, retained: seq<Item>, id: string,
                      outputId: string): Option<Result> {
    var summary := ResultSummary(state);
    var item := CompactionItem(id, summary, itemCount, MODE, state, retained);
    var expanded := Expand(prints, [item]);
    if expanded.None? then None
    else
      var last := CompactionItem(outputId, summary, itemCount, MODE, state, []);
      var output := if retained == [] then [item] else retained + [last];
      Some(Result(item, output, expanded.value))
  }

  lemma {:induction false} OpenedRaw(items: seq<Item>)
    ensures Opened(AsRaw(items)) == if NoNull(items) then Some(items) else None
    decreases items
  {
    if items != [] {
      var n := |items| - 1;
      assert AsRaw(items)[..n] == AsRaw(items[..n]);
      OpenedRaw(items[..n]);
      assert items == items[..n] + [items[n]];
    }
  }

  function TextOf(state: State, itemCount: int): string {
    Render(Encode<Raw>(ResultSummary(state), itemCount, MODE, state, []))
  }

  /** The item that shows a compaction's text: the text is there exactly when its quoted form is JSON. */
  function SummaryItem(prints: char -> bool, id: string, text: string): Item {
    Item(if TrimSpace(id) == "" then "" else TrimSpace(id),
         if AllShared(prints, text) then Message("system", text) else Nothing)
  }

  lemma PayloadExpands(prints: char -> bool, p: Payload<Raw>, retained: seq<Item>)
    requires p.retained == AsRaw(retained)
    ensures ExpandPayload(prints, p) ==
            if NoNull(retained) then Some([InputTextMessage(prints, "system", Render(p))] + retained) else None
  {
    OpenedRaw(retained);
  }

  lemma SummaryItemIs(prints: char -> bool, id: string, text: string)
    ensures var message := InputTextMessage(prints, "system", text);
            SummaryItem(prints, id, text) == if TrimSpace(id) == "" then message else message.WithId(TrimSpace(id))
  {
    SystemMessage(prints, text);
    assert TrimSpace("") == "";
  }

  lemma NamedIs(head: Item, retained: seq<Item>, id: string)
    ensures Named([head] + retained, id) == [if id == "" then head else head.WithId(id)] + retained
  {
    var named := head.WithId(id);
    assert ([head] + retained)[0 := named] == [named] + retained;
  }

  lemma SealedExpands(prints: char -> bool, id: string, p: Payload<Raw>, retained: seq<Item>)
    requires Decode(Some(p)) == Some(p) && p.retained == AsRaw(retained)
    ensures ExpandOne(prints, Item(id, Compaction(Some(p)))) ==
            if NoNull(retained) then Some([SummaryItem(prints, id, Render(p))] + retained) else None
  {
    var text := Render(p);
    PayloadExpands(prints, p, retained);
    SummaryItemIs(prints, id, text);
    NamedIs(InputTextMessage(prints, "system", text), retained, TrimSpace(id));
  }

  lemma ExpandSingle(prints: char -> bool, item: Item)
    ensures Expand(prints, [item]) == ExpandOne(prints, item)
  {
    assert Replace(Expander(prints), [item]) == Append(Some([]), ExpandOne(prints, item)) by {
      assert [item][..0] == [];
    }
    assert ExpandOne(prints, item).Some? ==> [] + ExpandOne(prints, item).value == ExpandOne(prints, item).value;
  }

  lemma RenderIgnoresRetained(p: Payload<Raw>, raws: seq<Raw>)
    ensures Render(p.(retained := raws)) == Render(p)
  {
  }

  /** A compaction item expands to its rendered summary and then what it retains, unless an empty item is retained. */
  lemma CompactionItemExpands(prints: char -> bool, id: string, itemCount: int, state: State, retained: seq<Item>)
    ensures Expand(prints, [CompactionItem(id, ResultSummary(state), itemCount, MODE, state, retained)]) ==
            if NoNull(retained) then Some([SummaryItem(prints, id, TextOf(state, itemCount))] + retained) else None
  {
    var p := Encode(ResultSummary(state), itemCount, MODE, state, AsRaw(retained));
    EncodeDecode(ResultSummary(state), itemCount, MODE, state, AsRaw(retained));
    SealedExpands(prints, id, p, retained);
    RenderIgnoresRetained(p, []);
    ExpandSingle(prints, Item(id, Compaction(Some(p))));
  }

  /** A structured result fails exactly when an empty item is retained. */
  lemma StructuredSucceedsIff(prints: char -> bool, state: State, itemCount: int, retained: seq<Item>, id: string,
                              outputId: string)
    ensures var r := Structured(prints, state, itemCount, retained, id, outputId);
            && (r.Some? <==> NoNull(retained))
            && (r.Some? ==>
                  && r.value.expanded == [SummaryItem(prints, id, TextOf(state, itemCount))] + retained
                  && Expand(prints, [r.value.item]) == Some(r.value.expanded))
  {
    CompactionItemExpands(prints, id, itemCount, state, retained);
  }

  // ---------------------------------------------------------------- an input that cannot be retained

  /** A message whose text JSON does not quote alike is the empty item. */
  lemma UnquotableIsNull(prints: char -> bool, role: string, text: string)
    ensures IsNull(InputTextMessage(prints, role, text)) <==> !(AllShared(prints, role) && AllShared(prints, text))
  {
    JsonReadsIff(prints, role);
    JsonReadsIff(prints, text);
  }

  /** So an input or instruction with such a text makes the structured result fail as long as it is retained. */
  lemma UnquotableInputFails(prints: char -> bool, state: State, itemCount: int, before: seq<Item>, role: string,
                             text: string, after: seq<Item>, limit: int, id: string, outputId: string)
    requires !AllShared(prints, text) && limit > |after|
    ensures var items := before + [InputTextMessage(prints, role, text)] + after;
            Structured(prints, state, itemCount, RetainRecent(items, limit), id, outputId).None?
  {
    var lost := InputTextMessage(prints, role, text);
    var items := before + [lost] + after;
    var retained := RetainRecent(items, limit);
    var k := |retained| - |after| - 1;
    UnquotableIsNull(prints, role, text);
    assert items[|before|] == lost && retained[k] == items[|items| - |retained| + k];
    assert IsNull(retained[k]);
    StructuredSucceedsIff(prints, state, itemCount, retained, id, outputId);
  }

  const ESC := 0x1B as char

  /** For instance a string input with an escape character in it, the last item of its context. */
  lemma EscapeInputFails(prints: char -> bool, state: State, itemCount: int, before: seq<Item>, a: string, b: string,
                         limit: int, id: string, outputId: string)
    requires limit > 0
    ensures var items := before + [InputTextMessage(prints, "user", a + [ESC] + b)];
            && NoCompaction([InputTextMessage(prints, "user", a + [ESC] + b)])
            && Structured(prints, state, itemCount, RetainRecent(items, limit), id, outputId).None?
  {
    var text := a + [ESC] + b;
    assert text[|a|] == ESC && !IsShared(prints, ESC);
    UnquotableIsNull(prints, "user", text);
    UnquotableInputFails(prints, state, itemCount, before, "user", text, [], limit, id, outputId);
    var items := before + [InputTextMessage(prints, "user", text)];
    assert items + [] == items;
  }

  // ---------------------------------------------------------------- compaction as a whole

  const NO_STATE := State("", [], [], [], [])

  /** Without a model: the item carries a summary and retains nothing. */
  function Heuristic(prints: char -> bool, summary: string, itemCount: int, id: string): Option<Result> {
    var item := CompactionItem(id, summary, itemCount, "", NO_STATE, []);
    var expanded := Expand(prints, [item]);
    if expanded.None? then None else Some(Result(item, [item], expanded.value))
  }

  /** With the state a model gave, if it gave one; where that fails, without. */
  function Compact(prints: char -> bool, items: seq<Item>, state: Option<State>, limit: int, summary: string,
                   id: string, outputId: string): Option<Result> {
    var structured :=
      if state.None? then None
      else Structured(prints, state.value, |items|, RetainRecent(items, limit), id, outputId);
    if structured.Some? then structured else Heuristic(prints, summary, |items|, id)
  }

  lemma HeuristicSucceeds(prints: char -> bool, summary: string, itemCount: int, id: string)
    ensures var r := Heuristic(prints, summary, itemCount, id);
            && r.Some?
            && r.value.expanded == [SummaryItem(prints, id, SummaryMessage(TrimSpace(summary)))]
  {
    var p := Encode(summary, itemCount, "", NO_STATE, AsRaw([]));
    EncodeDecode(summary, itemCount, "", NO_STATE, AsRaw([]));
    SealedExpands(prints, id, p, []);
    ExpandSingle(prints, Item(id, Compaction(Some(p))));
    EmptyStateVanishes();
    var shown := [SummaryItem(prints, id, SummaryMessage(TrimSpace(summary)))];
    assert shown + [] == shown;
  }

  lemma EmptyStateVanishes()
    ensures IsEmpty(Normalize(NO_STATE))
  {
    assert TrimSpace("") == "";
  }

  /** Compaction never fails; it falls back exactly when there is no state or an empty item would be retained. */
  lemma CompactSucceeds(prints: char -> bool, items: seq<Item>, state: Option<State>, limit: int, summary: string,
                        id: string, outputId: string)
    ensures var r := Compact(prints, items, state, limit, summary, id, outputId);
            && r.Some?
            && r.value.expanded ==
               if state.Some? && NoNull(RetainRecent(items, limit))
               then [SummaryItem(prints, id, TextOf(state.value, |items|))] + RetainRecent(items, limit)
               else [SummaryItem(prints, id, SummaryMessage(TrimSpace(summary)))]
  {
    HeuristicSucceeds(prints, summary, |items|, id);
    if state.Some? {
      StructuredSucceedsIff(prints, state.value, |items|, RetainRecent(items, limit), id, outputId);
    }
  }

  // ---------------------------------------------------------------- what the items carry

  /** The item is a compaction that opens to these values. */
  predicate Carries(item: Item, id: string, summary: string, itemCount: int, mode: string, retained: seq<Raw>) {
    && item.id == id && item.IsCompaction() && Decode(item.body.sealed).Some?
    && var p := Decode(item.body.sealed).value;
       p.summary == summary && p.itemCount == itemCount && p.mode == mode && p.retained == retained
  }

  lemma ItemCarries(id: string, summary: string, itemCount: int, mode: string, state: State, retained: seq<Item>)
    ensures Carries(CompactionItem(id, summary, itemCount, mode, state, retained), id, TrimSpace(summary), itemCount,
                    TrimSpace(mode), AsRaw(retained))
  {
    EncodeDecode(summary, itemCount, mode, state, AsRaw(retained));
  }

  lemma NamedMode()
    ensures TrimSpace(MODE) == "model_assisted_text" && TrimSpace("Prior context was compacted.") ==
            "Prior context was compacted." && TrimSpace("") == ""
  {
    TrimOfTrimmed(MODE);
    TrimOfTrimmed("Prior context was compacted.");
  }

  /** The summary of a state, or a fixed phrase where it is blank. */
  lemma SummaryCarried(state: State)
    ensures TrimSpace(ResultSummary(state)) ==
            if AllSpace(state.summary) then "Prior context was compacted." else TrimSpace(state.summary)
  {
    AllSpaceIffBlank(state.summary);
    Text.TrimTwice(state.summary);
    NamedMode();
  }

  /**
    The item of a result counts all the items and names how it was made; the output is the item, or what was
    retained and, last, an item that says the same but retains nothing.
   */
  lemma ResultCarries(prints: char -> bool, items: seq<Item>, state: Option<State>, limit: int, summary: string,
                      id: string, outputId: string)
    ensures var r := Compact(prints, items, state, limit, summary, id, outputId);
            var kept := RetainRecent(items, limit);
            && r.Some?
            && if state.Some? && NoNull(kept) then
                 var shown := if AllSpace(state.value.summary) then "Prior context was compacted."
                              else TrimSpace(state.value.summary);
                 && Carries(r.value.item, id, shown, |items|, "model_assisted_text", AsRaw(kept))
                 && if kept == [] then r.value.output == [r.value.item]
                    else
                      && |r.value.output| == |kept| + 1 && kept <= r.value.output
                      && Carries(r.value.output[|kept|], outputId, shown, |items|, "model_assisted_text", [])
               else
                 Carries(r.value.item, id, TrimSpace(summary), |items|, "", []) && r.value.output == [r.value.item]
  {
    CompactSucceeds(prints, items, state, limit, summary, id, outputId);
    HeuristicSucceeds(prints, summary, |items|, id);
    NamedMode();
    assert AsRaw([]) == [];
    if state.Some? {
      var kept := RetainRecent(items, limit);
      var s := state.value;
      StructuredSucceedsIff(prints, s, |items|, kept, id, outputId);
      SummaryCarried(s);
      ItemCarries(id, ResultSummary(s), |items|, MODE, s, kept);
      ItemCarries(outputId, ResultSummary(s), |items|, MODE, s, []);
    }
    ItemCarries(id, summary, |items|, "", NO_STATE, []);
  }

  // ---------------------------------------------------------------- the text that is shown

  /** The text is shown exactly when Go and JSON quote all its characters alike. */
  lemma TextShownIff(prints: char -> bool, state: State, itemCount: int, retained: seq<Item>, id: string,
                     outputId: string)
    ensures var r := Structured(prints, state, itemCount, retained, id, outputId);
            && (r.Some? <==> NoNull(retained))
            && (r.Some? ==>
                  && r.value.expanded != []
                  && (r.value.expanded[0].body == Message("system", TextOf(state, itemCount)) <==>
                      AllShared(prints, TextOf(state, itemCount))))
  {
    StructuredSucceedsIff(prints, state, itemCount, retained, id, outputId);
  }

  lemma RenderStarts(p: Payload<Raw>, state: State)
    requires p.state == Some(state) && Normalize(state) == state && TrimSpace(state.summary) == state.summary != ""
    ensures HEADING + state.summary <= Render(p)
  {
  }

  lemma TextStarts(state: State, itemCount: int)
    requires IsTrimmed(state.summary) && 0 < |state.summary| <= 4096
    ensures HEADING + state.summary <= TextOf(state, itemCount)
  {
    TrimOfTrimmed(state.summary);
    NormalizeTwice(state);
    var normal := Normalize(state);
    assert normal.summary == state.summary;
    RenderStarts(Encode<Raw>(ResultSummary(state), itemCount, MODE, state, []), normal);
  }

  lemma InsidePrefix(a: string, b: string, text: string, k: nat)
    requires a + b <= text && k < |b|
    ensures |a| + k < |text| && text[|a| + k] == b[k]
  {
    assert text[|a| + k] == (a + b)[|a| + k];
  }

  /** A character of the summary that JSON does not quote alike loses the whole text, and nothing is reported. */
  lemma TextLost(prints: char -> bool, state: State, itemCount: int, retained: seq<Item>, id: string, outputId: string,
                 k: nat)
    requires IsTrimmed(state.summary) && k < |state.summary| <= 4096 && !IsShared(prints, state.summary[k])
    ensures var r := Structured(prints, state, itemCount, retained, id, outputId);
            && (r.Some? <==> NoNull(retained))
            && (r.Some? ==> r.value.expanded != [] && r.value.expanded[0].body == Nothing)
  {
    StructuredSucceedsIff(prints, state, itemCount, retained, id, outputId);
    TextStarts(state, itemCount);
    InsidePrefix(HEADING, state.summary, TextOf(state, itemCount), k);
    assert !AllShared(prints, TextOf(state, itemCount));
  }

  lemma EscapeLosesText(prints: char -> bool, a: string, b: string, id: string, outputId: string)
    requires a != "" && b != "" && IsTrimmed(a) && IsTrimmed(b) && |a| + 1 + |b| <= 4096
    ensures var r := Structured(prints, State(a + [ESC] + b, [], [], [], []), 0, [], id, outputId);
            r.Some? && r.value.expanded != [] && r.value.expanded[0].body == Nothing
  {
    var state := State(a + [ESC] + b, [], [], [], []);
    assert state.summary[|a|] == ESC;
    TextLost(prints, state, 0, [], id, outputId, |a|);
  }

  /** The lists of a one-line state are shown in the text of its result, each under its own title. */
  lemma TextSections(state: State, itemCount: int)
    requires OneLiners(Normalize(state)) && Free(ResultSummary(state), '\n') && Free(Normalize(state).summary, '\n')
    ensures var lines, normal := Split(TextOf(state, itemCount), '\n'), Normalize(state);
            && EntriesUnder(lines, "Key facts") == normal.keyFacts
            && EntriesUnder(lines, "Constraints") == normal.constraints
            && EntriesUnder(lines, "Open loops") == normal.openLoops
            && EntriesUnder(lines, "Recent tool state") == normal.toolState
  {
    var summary := ResultSummary(state);
    var given: Payload<Raw> := Payload(1, summary, itemCount, MODE, Some(state), []);
    EncodeDecode<Raw>(summary, itemCount, MODE, state, []);
    RoundTripRenders<Raw>(summary, itemCount, MODE, state, []);
    ShownIsFree(given, state);
    RenderedSections(given, state);
  }

  lemma ShownIsFree(p: Payload<Raw>, state: State)
    requires p.state == Some(state) && Free(p.summary, '\n') && Free(Normalize(state).summary, '\n')
    ensures Free(SummaryShown(p), '\n')
  {
    TrimFree(p.summary);
    TrimFree(Normalize(state).summary);
  }

  // ---------------------------------------------------------------- the output in a later turn

  lemma TrimAtLast(front: seq<Item>, last: Item, later: seq<Item>)
    requires last.IsCompaction() && NoCompaction(later)
    ensures Trim(front + [last] + later) == [last] + later
  {
    var rest := [last] + later;
    assert front + [last] + later == front + rest;
    assert rest[0].IsCompaction();
    TrimForgets(front, rest);
    assert OnlyAtHead(rest);
    HeadIsLast(rest);
  }

  /**
    The output is what is retained and then the compaction.  When a later turn trims it, only that
    compaction is left of it, which retains nothing; the compaction item by itself keeps everything.
   */
  lemma OutputTrimmed(prints: char -> bool, state: State, itemCount: int, retained: seq<Item>, id: string,
                      outputId: string, later: seq<Item>)
    requires NoNull(retained) && NoCompaction(later)
    ensures var r := Structured(prints, state, itemCount, retained, id, outputId);
            && r.Some?
            && var out, text := r.value.output, TextOf(state, itemCount);
               && |out| == |retained| + 1 && out[..|retained|] == retained && out[|retained|].IsCompaction()
               && Expand(prints, Trim(out + later)) ==
                  Some([SummaryItem(prints, if retained == [] then id else outputId, text)] + later)
               && Expand(prints, Trim([r.value.item] + later)) ==
                  Some([SummaryItem(prints, id, text)] + retained + later)
  {
    StructuredSucceedsIff(prints, state, itemCount, retained, id, outputId);
    var r := Structured(prints, state, itemCount, retained, id, outputId).value;
    var out, last := r.output, r.output[|retained|];
    assert out == retained + [last];
    TrimAtLast(retained, last, later);
    TrimAtLast([], r.item, later);
    assert [] + [r.item] + later == [r.item] + later;
    ExpandConcat(prints, [last], later);
    ExpandConcat(prints, [r.item], later);
    ExpandPlain(prints, later);
    if retained != [] {
      CompactionItemExpands(prints, outputId, itemCount, state, []);
    }
    var shown := SummaryItem(prints, if retained == [] then id else outputId, TextOf(state, itemCount));
    assert [shown] + [] == [shown];
  }

  // ---------------------------------------------------------------- item and output agree

  ghost function Bodies(items: seq<Item>): multiset<Body> {
    multiset(seq(|items|, k requires 0 <= k < |items| => items[k].body))
  }

  lemma BodiesConcat(a: seq<Item>, b: seq<Item>)
    ensures Bodies(a + b) == Bodies(a) + Bodies(b)
  {
    var f := (xs: seq<Item>) => seq(|xs|, k requires 0 <= k < |xs| => xs[k].body);
    assert f(a + b) == f(a) + f(b);
  }

  lemma BodyIn(items: seq<Item>, x: Body)
    ensures x in Bodies(items) <==> exists k :: 0 <= k < |items| && items[k].body == x
  {
    var bodies := seq(|items|, k requires 0 <= k < |items| => items[k].body);
    assert x in multiset(bodies) <==> x in bodies;
    if x in bodies {
      var k :| 0 <= k < |bodies| && bodies[k] == x;
      assert items[k].body == x;
    }
    if k :| 0 <= k < |items| && items[k].body == x {
      assert bodies[k] == x;
    }
  }

  lemma BodiesSize(items: seq<Item>)
    ensures |Bodies(items)| == |items|
  {
  }

  lemma {:induction false} ReplaceGrows(f: Item -> Option<seq<Item>>, items: seq<Item>)
    requires Replace(f, items).Some?
    requires forall item :: f(item).Some? ==>
             |f(item).value| >= 1 && (|f(item).value| == 1 ==> NoCompaction(f(item).value))
    ensures |Replace(f, items).value| >= |items|
    ensures |Replace(f, items).value| == |items| ==> NoCompaction(Replace(f, items).value)
    decreases items
  {
    if items != [] {
      var n := |items| - 1;
      ReplaceGrows(f, items[..n]);
      assert Replace(f, items).value == Replace(f, items[..n]).value + f(items[n]).value;
    }
  }

  /** Expansion never shrinks a list, and where it does not grow no compaction is left. */
  lemma ExpandGrows(prints: char -> bool, items: seq<Item>)
    requires Expand(prints, items).Some?
    ensures |Expand(prints, items).value| >= |items|
    ensures |Expand(prints, items).value| == |items| ==> NoCompaction(Expand(prints, items).value)
  {
    forall item | ExpandOne(prints, item).Some?
      ensures |ExpandOne(prints, item).value| >= 1 &&
              (|ExpandOne(prints, item).value| == 1 ==> NoCompaction(ExpandOne(prints, item).value))
    {
      OneGrows(prints, item);
    }
    ReplaceGrows(Expander(prints), items);
  }

  lemma OneGrows(prints: char -> bool, item: Item)
    requires ExpandOne(prints, item).Some?
    ensures |ExpandOne(prints, item).value| >= 1
    ensures |ExpandOne(prints, item).value| == 1 ==> NoCompaction(ExpandOne(prints, item).value)
  {
    if item.IsCompaction() {
      OpenedSize(Decode(item.body.sealed).value.retained);
    }
  }

  lemma ExpandKeepsBodiesIff(prints: char -> bool, items: seq<Item>)
    requires Expand(prints, items).Some?
    ensures Bodies(Expand(prints, items).value) == Bodies(items) <==> NoCompaction(items)
  {
    if NoCompaction(items) {
      ExpandPlain(prints, items);
    } else {
      var e := Expand(prints, items).value;
      if Bodies(e) == Bodies(items) {
        BodiesSize(e);
        BodiesSize(items);
        ExpandGrows(prints, items);
        var k :| 0 <= k < |items| && items[k].IsCompaction();
        BodyIn(items, items[k].body);
        BodyIn(e, items[k].body);
        assert false;
      }
    }
  }

  lemma AgreeIff(prints: char -> bool, retained: seq<Item>, mine: Item, theirs: Item, last: Item)
    requires mine.body == theirs.body && Expand(prints, [last]) == Some([theirs])
    ensures var e := Expand(prints, retained + [last]);
            e.Some? && Bodies(e.value) == Bodies([mine] + retained) <==> NoCompaction(retained)
  {
    ExpandConcat(prints, retained, [last]);
    BodiesConcat([mine], retained);
    OneBody(mine, theirs);
    if Expand(prints, retained).Some? {
      BodiesConcat(Expand(prints, retained).value, [theirs]);
      ExpandKeepsBodiesIff(prints, retained);
      Cancel(Bodies([theirs]), Bodies(retained), Bodies(Expand(prints, retained).value));
    } else if NoCompaction(retained) {
      ExpandPlain(prints, retained);
    }
  }

  /**
    The compaction item and the output, where there is no empty item to retain, say the same, up to ids,
    exactly when no retained item is itself a compaction: those are opened in the output only.
   */
  lemma ItemAndOutputAgreeIff(prints: char -> bool, state: State, itemCount: int, retained: seq<Item>, id: string,
                              outputId: string)
    ensures var r := Structured(prints, state, itemCount, retained, id, outputId);
            && (r.Some? <==> NoNull(retained))
            && (r.Some? ==>
                  (Expand(prints, r.value.output).Some? &&
                   Bodies(Expand(prints, r.value.output).value) == Bodies(r.value.expanded)
                   <==> NoCompaction(retained)))
  {
    StructuredSucceedsIff(prints, state, itemCount, retained, id, outputId);
    if NoNull(retained) && retained != [] {
      var text := TextOf(state, itemCount);
      var last := CompactionItem(outputId, ResultSummary(state), itemCount, MODE, state, []);
      var mine, theirs := SummaryItem(prints, id, text), SummaryItem(prints, outputId, text);
      CompactionItemExpands(prints, outputId, itemCount, state, []);
      assert [theirs] + [] == [theirs];
      AgreeIff(prints, retained, mine, theirs, last);
    }
  }

  /** One retained compaction, even an empty one, makes them differ. */
  lemma RetainedCompactionDiffers(prints: char -> bool, state: State, itemCount: int, id: string, outputId: string)
    ensures var inner := CompactionItem("", "", 0, MODE, NO_STATE, []);
            var r := Structured(prints, state, itemCount, [inner], id, outputId);
            && r.Some?
            && !(Expand(prints, r.value.output).Some? &&
                 Bodies(Expand(prints, r.value.output).value) == Bodies(r.value.expanded))
  {
    var inner := CompactionItem("", "", 0, MODE, NO_STATE, []);
    ItemAndOutputAgreeIff(prints, state, itemCount, [inner], id, outputId);
    assert [inner][0].IsCompaction();
  }

  lemma OneBody(a: Item, b: Item)
    requires a.body == b.body
    ensures Bodies([a]) == Bodies([b])
  {
  }

  lemma Cancel(a: multiset<Body>, b: multiset<Body>, c: multiset<Body>)
    ensures a + b == c + a <==> b == c
  {
    if a + b == c + a {
      assert (a + b) - a == b && (c + a) - a == c;
    }
  }
}
