/** The upload queue of frontend/src/pages/Upload.jsx: each dropped file adds
    an item, and the upload's progress, success and failure each rewrite the
    items with that item's id; the remove button filters the id out. The
    promise callbacks arrive as separate calls, in any order the caller
    chooses. */
module UploadPage {
  import opened Outcomes
  import opened BadgeVariants

  datatype ItemStatus = Uploading | Processing | Failed

  /** One queue entry. Ids are `Date.now() + Math.random()`, given here as a
      parameter; nothing makes them distinct. */
  datatype Item = Item(id: real, fileName: string, progress: int, status: ItemStatus, message: string)

  const UploadingMessage: string := "Uploading..."
  const ProcessingMessage: string := "Processing..."

  function NewItem(id: real, fileName: string): (it: Item)
    ensures it.id == id && it.fileName == fileName
    ensures it.progress == 0 && it.status == Uploading && it.message == UploadingMessage
  {
    Item(id, fileName, 0, Uploading, UploadingMessage)
  }

  // ---------------------------------------------------------------------------
  // Per-item updates

  /** The three updates a callback applies to its item. */
  datatype Change = SetProgress(percent: int) | Succeeded | FailedWith(error: string)

  function Apply(it: Item, c: Change): (r: Item)
    ensures r.id == it.id && r.fileName == it.fileName
    ensures c.SetProgress? ==> r == it.(progress := c.percent)
    ensures c.Succeeded? ==> r.status == Processing && r.message == ProcessingMessage && r.progress == 100
    ensures c.FailedWith? ==> r.status == Failed && r.message == c.error && r.progress == it.progress
  {
    match c
    case SetProgress(p) => it.(progress := p)
    case Succeeded => it.(status := Processing, message := ProcessingMessage, progress := 100)
    case FailedWith(e) => it.(status := Failed, message := e)
  }

  /** `prev.map(i => i.id === id ? change(i) : i)`. */
  function MapId(items: seq<Item>, id: real, c: Change): (r: seq<Item>)
    ensures |r| == |items|
    ensures forall k :: 0 <= k < |items| ==>
      r[k] == if items[k].id == id then Apply(items[k], c) else items[k]
  {
    if items == [] then []
    else MapId(items[..|items| - 1], id, c) + [var it := items[|items| - 1]; if it.id == id then Apply(it, c) else it]
  }

  /** `prev.filter(i => i.id !== id)`. */
  function Without(items: seq<Item>, id: real): (r: seq<Item>)
    ensures |r| <= |items|
    ensures forall k :: 0 <= k < |r| ==> r[k].id != id
  {
    if items == [] then []
    else Without(items[..|items| - 1], id) + (if items[|items| - 1].id != id then [items[|items| - 1]] else [])
  }

  /** Exactly the items without the id remain. */
  lemma {:induction false} WithoutMembers(items: seq<Item>, id: real)
    ensures forall x :: x in Without(items, id) <==> x in items && x.id != id
    decreases |items|
  {
    if items != [] {
      var init, last := items[..|items| - 1], items[|items| - 1];
      WithoutMembers(init, id);
      assert items == init + [last];
      assert Without(items, id) == Without(init, id) + (if last.id != id then [last] else []);
    }
  }

  /** Removal keeps the order of the remaining items. */
  lemma {:induction false} WithoutConcat(a: seq<Item>, b: seq<Item>, id: real)
    ensures Without(a + b, id) == Without(a, id) + Without(b, id)
    decreases |b|
  {
    if b == [] {
      assert a + b == a;
    } else {
      var b0, last := b[..|b| - 1], b[|b| - 1];
      assert (a + b)[..|a + b| - 1] == a + b0 && (a + b)[|a + b| - 1] == last;
      WithoutConcat(a, b0, id);
      var tail := if last.id != id then [last] else [];
      assert Without(a + b, id) == Without(a + b0, id) + tail;
      assert Without(b, id) == Without(b0, id) + tail;
    }
  }

  /** Removing an id that no item carries changes nothing, and removal is
      idempotent. */
  lemma {:induction false} WithoutAbsent(items: seq<Item>, id: real)
    requires forall k :: 0 <= k < |items| ==> items[k].id != id
    ensures Without(items, id) == items
    decreases |items|
  {
    if items != [] {
      var init, last := items[..|items| - 1], items[|items| - 1];
      assert forall k :: 0 <= k < |init| ==> init[k] == items[k];
      WithoutAbsent(init, id);
      assert Without(items, id) == Without(init, id) + [last];
      assert init + [last] == items;
    }
  }

  lemma WithoutIdempotent(items: seq<Item>, id: real)
    ensures Without(Without(items, id), id) == Without(items, id)
  {
    WithoutAbsent(Without(items, id), id);
  }

  /** An update of one id leaves every other item as it was and never moves
      an item; an update of an id no item carries changes nothing. */
  lemma MapIdTouchesOnlyItsItems(items: seq<Item>, id: real, c: Change)
    ensures forall k :: 0 <= k < |items| && items[k].id != id ==> MapId(items, id, c)[k] == items[k]
    ensures forall k :: 0 <= k < |items| ==> MapId(items, id, c)[k].id == items[k].id
    ensures (forall k :: 0 <= k < |items| ==> items[k].id != id) ==> MapId(items, id, c) == items
  {
  }

  // ---------------------------------------------------------------------------
  // Progress

  /** `Math.round(loaded * 100 / total)`: the nearest whole percent, halves
      rounded up. Stated without division: p - 1/2 <= 100·loaded/total < p + 1/2. */
  function RoundedPercent(loaded: nat, total: nat): (p: int)
    requires total > 0
    ensures 2 * total * p <= 200 * loaded + total < 2 * total * (p + 1)
  {
    (200 * loaded + total) / (2 * total)
  }

  /** The rounded percent of a partial upload is within 0..100 and reaches
      100 when everything is sent. */
  lemma RoundedPercentRange(loaded: nat, total: nat)
    requires 0 < total && loaded <= total
    ensures 0 <= RoundedPercent(loaded, total) <= 100
    ensures loaded == total ==> RoundedPercent(loaded, total) == 100
    ensures loaded == 0 ==> RoundedPercent(loaded, total) == 0
  {
    var x := 200 * loaded + total;
    var d := 2 * total;
    QuotientAtMost(x, d, 100);
    if loaded == total {
      QuotientIs(x, d, 100);
    }
    if loaded == 0 {
      QuotientIs(x, d, 0);
    }
  }

  /** The quotient is q when x lies in [d·q, d·(q+1)). */
  lemma QuotientIs(x: int, d: int, q: int)
    requires d > 0 && d * q <= x < d * (q + 1)
    ensures x / d == q
  {
    var r := x / d;
    assert d * r <= x < d * r + d;
    var k := q - r;
    assert d * k == d * q - d * r;
    assert -d < d * k < d;
  }

  /** A nonnegative x below d·(q+1) has a quotient within 0..q. */
  lemma QuotientAtMost(x: int, d: int, q: int)
    requires d > 0 && 0 <= x < d * (q + 1)
    ensures 0 <= x / d <= q
  {
    var r := x / d;
    assert d * r <= x < d * r + d;
    LessCancel(d, r, q + 1);
  }

  /** A positive factor can be cancelled from a strict inequality. */
  lemma LessCancel(d: int, a: int, b: int)
    requires d > 0 && d * a < d * b
    ensures a < b
  {
    assert d * (b - a) == d * b - d * a;
  }

  // ---------------------------------------------------------------------------
  // The queue

  /** The badge variant: error for failed, warning for processing, info
      otherwise. */
  function BadgeVariant(s: ItemStatus): (v: Variant)
    ensures v == Error <==> s == Failed
    ensures v == Warning <==> s == Processing
    ensures v == Info <==> s == Uploading
  {
    match s
    case Failed => Error
    case Processing => Warning
    case Uploading => Info
  }

  /** uploadQueue. */
  class Queue {
    var items: seq<Item>

    constructor ()
      ensures items == []
    {
      items := [];
    }

    /** The start of onDrop's body for one file: one uploading item at the end. */
    method Enqueue(id: real, fileName: string)
      modifies this
      ensures items == old(items) + [NewItem(id, fileName)]
    {
      items := items + [NewItem(id, fileName)];
    }

    /** onDrop: one new item per accepted file, in the files' order. */
    method Drop(files: seq<(real, string)>)
      modifies this
      ensures |items| == |old(items)| + |files|
      ensures items[..|old(items)|] == old(items)
      ensures forall k :: 0 <= k < |files| ==> items[|old(items)| + k] == NewItem(files[k].0, files[k].1)
    {
      var i := 0;
      while i < |files|
        invariant 0 <= i <= |files|
        invariant |items| == |old(items)| + i
        invariant items[..|old(items)|] == old(items)
        invariant forall k :: 0 <= k < i ==> items[|old(items)| + k] == NewItem(files[k].0, files[k].1)
      {
        Enqueue(files[i].0, files[i].1);
        i := i + 1;
      }
    }

    /** The upload-progress callback of the item `id`. */
    method Progress(id: real, loaded: nat, total: nat)
      requires total > 0
      modifies this
      ensures items == MapId(old(items), id, SetProgress(RoundedPercent(loaded, total)))
    {
      items := MapId(items, id, SetProgress(RoundedPercent(loaded, total)));
    }

    /** The `.then` callback. */
    method Succeed(id: real)
      modifies this
      ensures items == MapId(old(items), id, Succeeded)
    {
      items := MapId(items, id, Succeeded);
    }

    /** The `.catch` callback, with the error's message. */
    method Fail(id: real, error: string)
      modifies this
      ensures items == MapId(old(items), id, FailedWith(error))
    {
      items := MapId(items, id, FailedWith(error));
    }

    /** removeItem. */
    method Remove(id: real)
      modifies this
      ensures items == Without(old(items), id)
    {
      items := Without(items, id);
    }
  }
}
