// The bitmap cache of the render worker: least-recently-used order under a byte budget.

/** What identifies a render, a cached bitmap and a request. */
module RenderTypes {
  type DocumentId = nat
  type PageIndex = nat

  datatype Rotation = Degrees0 | Degrees90 | Degrees180 | Degrees270
  datatype Priority = Visible | Prefetch | Thumbnail
  datatype RenderKind = Page | ThumbnailKind

  datatype RenderJob = RenderJob(
    requestId: nat, generation: nat, documentId: DocumentId, pageIndex: PageIndex,
    targetWidth: nat, targetHeight: nat, rotation: Rotation, priority: Priority, kind: RenderKind)

  /** `RenderRequestKey`: a request without its identifier and its priority. */
  datatype RequestKey = RequestKey(
    generation: nat, documentId: DocumentId, pageIndex: PageIndex,
    targetWidth: nat, targetHeight: nat, rotation: Rotation, kind: RenderKind)

  function KeyOf(job: RenderJob): RequestKey {
    RequestKey(job.generation, job.documentId, job.pageIndex, job.targetWidth, job.targetHeight, job.rotation, job.kind)
  }

  /** Two requests have the same key exactly when they differ in identifier and priority at most. */
  lemma KeyIdentifies(a: RenderJob, b: RenderJob)
    ensures KeyOf(a) == KeyOf(b) <==> a == b.(requestId := a.requestId, priority := a.priority)
  {}

  datatype CacheKey = CacheKey(
    documentId: DocumentId, pageIndex: PageIndex, targetWidth: nat, targetHeight: nat,
    rotation: Rotation, invertColors: bool)

  function CacheKeyOf(job: RenderJob, invert: bool): CacheKey {
    CacheKey(job.documentId, job.pageIndex, job.targetWidth, job.targetHeight, job.rotation, invert)
  }
}

module Cache {
  import opened Wrappers
  import opened RenderTypes
  import opened Bitmap

  datatype Entry = Entry(key: CacheKey, bitmap: RawBitmap)

  const CAPACITY := 1000

  function Size(b: RawBitmap): nat {
    |b.pixels|
  }

  // Entries are kept from the most to the least recently used.

  function Total(es: seq<Entry>): nat {
    if es == [] then 0 else Total(es[..|es| - 1]) + Size(es[|es| - 1].bitmap)
  }

  predicate DistinctKeys(es: seq<Entry>) {
    forall i, j :: 0 <= i < j < |es| ==> es[i].key != es[j].key
  }

  /** The position of a key; the number of entries if it is absent. */
  function Find(es: seq<Entry>, key: CacheKey): (at: nat)
    ensures at <= |es|
    ensures at < |es| ==> es[at].key == key
    ensures forall i :: 0 <= i < at ==> es[i].key != key
  {
    if es == [] then 0 else if es[0].key == key then 0 else 1 + Find(es[1..], key)
  }

  function Removed(es: seq<Entry>, at: nat): seq<Entry>
    requires at < |es|
  {
    es[..at] + es[at + 1..]
  }

  /** `LruCache::pop`. */
  function Without(es: seq<Entry>, key: CacheKey): seq<Entry> {
    var at := Find(es, key);
    if at < |es| then Removed(es, at) else es
  }

  /** `LruCache::get`: the entry becomes the most recently used. */
  function Touched(es: seq<Entry>, key: CacheKey): seq<Entry> {
    var at := Find(es, key);
    if at < |es| then [es[at]] + Removed(es, at) else es
  }

  /** Drops least recently used entries until the required bytes fit beside the rest. */
  function Fitting(es: seq<Entry>, required: nat, budget: nat): seq<Entry> {
    if es == [] || Total(es) + required <= budget then es else Fitting(es[..|es| - 1], required, budget)
  }

  /** A full cache gives up its least recently used entry. */
  function Capped(es: seq<Entry>): seq<Entry> {
    if |es| >= CAPACITY then es[..|es| - 1] else es
  }

  /** `LruCache::push` of an absent key. */
  function Pushed(es: seq<Entry>, e: Entry): seq<Entry> {
    [e] + Capped(es)
  }

  /** An oversized bitmap changes nothing, not even an older entry for the same key. */
  function Inserted(es: seq<Entry>, budget: nat, key: CacheKey, b: RawBitmap): seq<Entry> {
    if Size(b) > budget then es
    else Pushed(Fitting(Without(es, key), Size(b), budget), Entry(key, b))
  }

  function WithoutDocument(es: seq<Entry>, doc: DocumentId): seq<Entry> {
    if es == [] then [] else
      var rest := WithoutDocument(es[1..], doc);
      if es[0].key.documentId == doc then rest else [es[0]] + rest
  }

  /** Same page, rotation and colours, and at least one side as large as required. */
  predicate Compatible(e: Entry, doc: DocumentId, page: PageIndex, rotation: Rotation, invert: bool, w: nat, h: nat) {
    && e.key.documentId == doc
    && e.key.pageIndex == page
    && e.key.rotation == rotation
    && e.key.invertColors == invert
    && (e.bitmap.width >= w || e.bitmap.height >= h)
  }

  /** The most recently used compatible bitmap; the order of use is not changed. */
  function LargerCompatible(es: seq<Entry>, doc: DocumentId, page: PageIndex, rotation: Rotation, invert: bool,
      w: nat, h: nat): (r: Option<RawBitmap>)
    ensures r.Some? ==> exists e :: e in es && e.bitmap == r.value && Compatible(e, doc, page, rotation, invert, w, h)
    ensures r.None? ==> forall e :: e in es ==> !Compatible(e, doc, page, rotation, invert, w, h)
  {
    if es == [] then None
    else if Compatible(es[0], doc, page, rotation, invert, w, h) then assert es[0] in es; Some(es[0].bitmap)
    else LargerCompatible(es[1..], doc, page, rotation, invert, w, h)
  }

  predicate Consistent(es: seq<Entry>, budget: nat) {
    Total(es) <= budget && |es| <= CAPACITY && DistinctKeys(es)
  }

  // What the operations keep

  lemma {:induction false} TotalConcat(a: seq<Entry>, b: seq<Entry>)
    ensures Total(a + b) == Total(a) + Total(b)
  {
    if b == [] {
      assert a + b == a;
    } else {
      assert (a + b)[..|a + b| - 1] == a + b[..|b| - 1];
      TotalConcat(a, b[..|b| - 1]);
    }
  }

  lemma TotalOne(e: Entry)
    ensures Total([e]) == Size(e.bitmap)
  {
    assert [e][..0] == [];
    assert Total([e][..|[e]| - 1]) == 0;
  }

  lemma TotalRemoved(es: seq<Entry>, at: nat)
    requires at < |es|
    ensures Total(Removed(es, at)) == Total(es) - Size(es[at].bitmap)
  {
    hide Total;
    var front, e, back := es[..at], es[at], es[at + 1..];
    assert es == front + [e] + back;
    TotalConcat(front + [e], back);
    TotalConcat(front, [e]);
    TotalConcat(front, back);
    TotalOne(e);
  }

  lemma RemovedKeepsDistinct(es: seq<Entry>, at: nat)
    requires at < |es| && DistinctKeys(es)
    ensures DistinctKeys(Removed(es, at))
    ensures forall e :: e in Removed(es, at) ==> e in es && e.key != es[at].key
  {
    var rest := Removed(es, at);
    forall i | 0 <= i < |rest| ensures rest[i] == es[if i < at then i else i + 1] {}
  }

  lemma PrefixKeepsDistinct(es: seq<Entry>, n: nat)
    requires n <= |es| && DistinctKeys(es)
    ensures DistinctKeys(es[..n])
    ensures forall e :: e in es[..n] ==> e in es
  {}

  /**
   * Eviction keeps the longest most-recently-used run that leaves room: one entry more and the
   * required bytes would not fit.
   */
  lemma {:induction false} FittingIsLongest(es: seq<Entry>, required: nat, budget: nat)
    requires required <= budget
    ensures var kept := Fitting(es, required, budget);
            && kept <= es
            && Total(kept) + required <= budget
            && (|kept| < |es| ==> Total(es[..|kept| + 1]) + required > budget)
  {
    if es != [] && Total(es) + required > budget {
      var n := |es| - 1;
      FittingIsLongest(es[..n], required, budget);
      var kept := Fitting(es, required, budget);
      if |kept| < n {
        assert es[..n][..|kept| + 1] == es[..|kept| + 1];
      } else {
        assert es[..|kept| + 1] == es;
      }
    } else {
      assert es[..|es|] == es;
    }
  }

  lemma TouchedIsConsistent(es: seq<Entry>, budget: nat, key: CacheKey)
    requires Consistent(es, budget)
    ensures Consistent(Touched(es, key), budget)
    ensures Total(Touched(es, key)) == Total(es)
    ensures forall e :: e in Touched(es, key) <==> e in es
  {
    var at := Find(es, key);
    if at < |es| {
      TotalRemoved(es, at);
      RemovedKeepsDistinct(es, at);
      TotalConcat([es[at]], Removed(es, at));
      TotalOne(es[at]);
      FrontKeepsDistinct(es[at], Removed(es, at));
      SameEntries(es, at);
    }
  }

  lemma SameEntries(es: seq<Entry>, at: nat)
    requires at < |es|
    ensures forall e :: e in [es[at]] + Removed(es, at) <==> e in es
  {
    assert es == es[..at] + [es[at]] + es[at + 1..];
  }

  lemma FrontKeepsDistinct(e: Entry, es: seq<Entry>)
    requires DistinctKeys(es) && forall f :: f in es ==> f.key != e.key
    ensures DistinctKeys([e] + es)
  {
    var all := [e] + es;
    forall i, j | 0 <= i < j < |all| ensures all[i].key != all[j].key {
      assert all[j] == es[j - 1] && es[j - 1] in es;
    }
  }

  lemma WithoutIsConsistent(es: seq<Entry>, budget: nat, key: CacheKey)
    requires Consistent(es, budget)
    ensures Consistent(Without(es, key), budget)
    ensures forall e :: e in Without(es, key) <==> e in es && e.key != key
  {
    var at := Find(es, key);
    if at < |es| {
      TotalRemoved(es, at);
      RemovedKeepsDistinct(es, at);
      SameEntries(es, at);
    }
  }

  /**
   * An insertion keeps the sum within the budget and the capacity, holds the new bitmap under
   * its key exactly when it is not oversized, and otherwise only drops entries.
   */
  lemma InsertedIsConsistent(es: seq<Entry>, budget: nat, key: CacheKey, b: RawBitmap)
    requires Consistent(es, budget)
    ensures Consistent(Inserted(es, budget, key, b), budget)
    ensures forall e :: e in Inserted(es, budget, key, b) ==> e == Entry(key, b) || e in es
    ensures Entry(key, b) in Inserted(es, budget, key, b) <==> Size(b) <= budget
  {
    hide Total, Fitting, Find, Pushed;
    if Size(b) <= budget {
      var others := Without(es, key);
      WithoutIsConsistent(es, budget, key);
      FittingIsLongest(others, Size(b), budget);
      var kept := Fitting(others, Size(b), budget);
      assert kept == others[..|kept|];
      PrefixKeepsDistinct(others, |kept|);
      PushedIsConsistent(kept, Entry(key, b), budget);
    } else if Entry(key, b) in es {
      EntryFits(es, Entry(key, b));
      assert false;
    }
  }

  lemma {:induction false} EntryFits(es: seq<Entry>, e: Entry)
    requires e in es
    ensures Size(e.bitmap) <= Total(es)
  {
    var n := |es| - 1;
    if e != es[n] {
      assert es == es[..n] + [es[n]];
      EntryFits(es[..n], e);
    }
  }

  lemma PushedIsConsistent(es: seq<Entry>, e: Entry, budget: nat)
    requires Total(es) + Size(e.bitmap) <= budget && |es| <= CAPACITY && DistinctKeys(es)
    requires forall f :: f in es ==> f.key != e.key
    ensures Consistent(Pushed(es, e), budget)
    ensures forall f :: f in Pushed(es, e) ==> f == e || f in es
    ensures e in Pushed(es, e)
  {
    CappedIsConsistent(es);
    TotalConcat([e], Capped(es));
    TotalOne(e);
    hide Total, Capped;
    FrontKeepsDistinct(e, Capped(es));
  }

  lemma CappedIsConsistent(es: seq<Entry>)
    requires |es| <= CAPACITY && DistinctKeys(es)
    ensures Total(Capped(es)) <= Total(es) && |Capped(es)| < CAPACITY && DistinctKeys(Capped(es))
    ensures forall e :: e in Capped(es) ==> e in es
  {
    if |es| >= CAPACITY {
      PrefixKeepsDistinct(es, |es| - 1);
    }
  }

  /** The entries for other keys, in their order of use. */
  function OtherKeys(es: seq<Entry>, key: CacheKey): seq<Entry> {
    if es == [] then []
    else if es[0].key == key then OtherKeys(es[1..], key)
    else [es[0]] + OtherKeys(es[1..], key)
  }

  lemma {:induction false} NoSuchKey(es: seq<Entry>, key: CacheKey)
    requires forall e :: e in es ==> e.key != key
    ensures OtherKeys(es, key) == es
  {
    if es != [] {
      NoSuchKey(es[1..], key);
    }
  }

  lemma {:induction false} WithoutIsOthers(es: seq<Entry>, key: CacheKey)
    requires DistinctKeys(es)
    ensures Without(es, key) == OtherKeys(es, key)
  {
    if es != [] {
      var rest := es[1..];
      if es[0].key == key {
        assert forall e :: e in rest ==> e.key != key;
        NoSuchKey(rest, key);
      } else {
        assert DistinctKeys(rest);
        WithoutIsOthers(rest, key);
        var at := Find(rest, key);
        if at < |rest| {
          assert es[..at + 1] == [es[0]] + rest[..at];
          assert es[at + 2..] == rest[at + 1..];
        }
      }
    }
  }

  /** A look-up puts its entry in front and leaves the order of the others. */
  lemma TouchedComesFirst(es: seq<Entry>, key: CacheKey, e: Entry)
    requires DistinctKeys(es) && e in es && e.key == key
    ensures Touched(es, key) == [e] + OtherKeys(es, key)
  {
    var at := Find(es, key);
    var i :| 0 <= i < |es| && es[i] == e;
    assert es[at].key == es[i].key;
    WithoutIsOthers(es, key);
  }

  /** The run is the longest front of the entries below the capacity that leaves the required room. */
  predicate IsLongestFit(es: seq<Entry>, kept: seq<Entry>, required: nat, budget: nat) {
    && kept <= es
    && Total(kept) + required <= budget && |kept| < CAPACITY
    && (|kept| < |es| ==> |kept| + 1 == CAPACITY || Total(es[..|kept| + 1]) + required > budget)
  }

  /**
   * An insertion puts the new bitmap in front of the longest run of other entries, most recently used first,
   * that leaves room for it; an oversized bitmap changes nothing.
   */
  lemma InsertedComesFirst(es: seq<Entry>, budget: nat, key: CacheKey, b: RawBitmap) returns (kept: seq<Entry>)
    requires Consistent(es, budget)
    ensures Size(b) > budget ==> Inserted(es, budget, key, b) == es
    ensures Size(b) <= budget ==>
              && Inserted(es, budget, key, b) == [Entry(key, b)] + kept
              && IsLongestFit(OtherKeys(es, key), kept, Size(b), budget)
  {
    kept := [];
    if Size(b) <= budget {
      var others := Without(es, key);
      WithoutIsOthers(es, key);
      WithoutIsConsistent(es, budget, key);
      FittingIsLongest(others, Size(b), budget);
      var fit := Fitting(others, Size(b), budget);
      kept := Capped(fit);
      hide Without, Fitting, OtherKeys, DistinctKeys;
      CappedFits(others, fit, Size(b), budget);
    }
  }

  lemma CappedFits(es: seq<Entry>, fit: seq<Entry>, required: nat, budget: nat)
    requires fit <= es && |es| <= CAPACITY && Total(fit) + required <= budget
    requires |fit| < |es| ==> Total(es[..|fit| + 1]) + required > budget
    ensures IsLongestFit(es, Capped(fit), required, budget)
  {
    hide Total;
    if |fit| >= CAPACITY {
      var (kept, last) := (fit[..|fit| - 1], [fit[|fit| - 1]]);
      assert fit == kept + last;
      TotalConcat(kept, last);
      assert kept <= es;
    } else {
      assert Capped(fit) == fit;
    }
  }

  /** Closing a document removes its bitmaps and no others, in unchanged order of use. */
  lemma {:induction false} WithoutDocumentIsConsistent(es: seq<Entry>, doc: DocumentId)
    requires DistinctKeys(es)
    ensures var rest := WithoutDocument(es, doc);
            && Total(rest) <= Total(es) && |rest| <= |es| && DistinctKeys(rest)
            && (forall e :: e in rest <==> e in es && e.key.documentId != doc)
  {
    if es != [] {
      var head, tail := es[0], es[1..];
      assert es == [head] + tail;
      TotalConcat([head], tail);
      TotalOne(head);
      WithoutDocumentIsConsistent(tail, doc);
      var rest := WithoutDocument(tail, doc);
      TotalConcat([head], rest);
      forall e | e in rest ensures e.key != head.key {
        var i :| 0 <= i < |tail| && tail[i] == e;
        assert es[i + 1] == e;
      }
      FrontKeepsDistinct(head, rest);
    }
  }

  /** The entries that stay when a document is closed keep their order of use. */
  lemma {:induction false} WithoutDocumentConcat(a: seq<Entry>, b: seq<Entry>, doc: DocumentId)
    ensures WithoutDocument(a + b, doc) == WithoutDocument(a, doc) + WithoutDocument(b, doc)
  {
    if a == [] {
      assert a + b == b;
    } else {
      assert (a + b)[1..] == a[1..] + b;
      WithoutDocumentConcat(a[1..], b, doc);
    }
  }

  lemma {:induction false} RemovedOfDocument(es: seq<Entry>, at: nat, doc: DocumentId)
    requires at < |es| && es[at].key.documentId == doc
    ensures WithoutDocument(Removed(es, at), doc) == WithoutDocument(es, doc)
  {
    if at == 0 {
      assert Removed(es, 0) == es[1..];
    } else {
      assert Removed(es, at)[0] == es[0];
      assert Removed(es, at)[1..] == Removed(es[1..], at - 1);
      RemovedOfDocument(es[1..], at - 1, doc);
    }
  }

  lemma KeyOfDocument(es: seq<Entry>, key: CacheKey, doc: DocumentId)
    requires DistinctKeys(es) && key.documentId == doc
    ensures WithoutDocument(Without(es, key), doc) == WithoutDocument(es, doc)
    ensures forall e :: e in Without(es, key) ==> e in es && e.key != key
  {
    var at := Find(es, key);
    if at < |es| {
      RemovedKeepsDistinct(es, at);
      RemovedOfDocument(es, at, doc);
    }
  }

  lemma {:induction false} NothingOfDocument(es: seq<Entry>, doc: DocumentId)
    requires forall e :: e in es ==> e.key.documentId != doc
    ensures WithoutDocument(es, doc) == es
  {
    if es != [] {
      assert es[0] in es;
      NothingOfDocument(es[1..], doc);
    }
  }

  /** The cache as the worker holds it. */
  class BitmapCache {
    var entries: seq<Entry>
    var currentBytes: nat
    var budgetBytes: nat

    /** The byte count is the sum of the stored bitmaps. */
    ghost predicate Counted()
      reads this
    {
      currentBytes == Total(entries) && |entries| <= CAPACITY && DistinctKeys(entries)
    }

    ghost predicate Valid()
      reads this
    {
      currentBytes == Total(entries) && Consistent(entries, budgetBytes)
    }

    constructor (budget: nat)
      ensures Valid() && entries == [] && budgetBytes == budget
    {
      entries, currentBytes, budgetBytes := [], 0, budget;
    }

    method Get(key: CacheKey) returns (r: Option<RawBitmap>)
      requires Valid()
      modifies this`entries
      ensures Valid() && entries == Touched(old(entries), key)
      ensures r.Some? <==> exists e :: e in entries && e.key == key
      ensures r.Some? ==> Entry(key, r.value) in entries
    {
      TouchedIsConsistent(entries, budgetBytes, key);
      var at := Find(entries, key);
      if at == |entries| {
        return None;
      }
      var found := entries[at];
      entries := [found] + Removed(entries, at);
      assert found in entries;
      return Some(found.bitmap);
    }

    /** The eviction loop shared by `evict_for` and `evict_to_budget`. */
    method EvictFor(requiredBytes: nat)
      requires Counted()
      modifies this`entries, this`currentBytes
      ensures Counted() && entries == Fitting(old(entries), requiredBytes, budgetBytes)
    {
      while currentBytes + requiredBytes > budgetBytes && entries != []
        invariant Counted()
        invariant Fitting(entries, requiredBytes, budgetBytes) == Fitting(old(entries), requiredBytes, budgetBytes)
        decreases |entries|
      {
        var n := |entries| - 1;
        var popped := entries[n];
        PrefixKeepsDistinct(entries, n);
        entries := entries[..n];
        currentBytes := currentBytes - Size(popped.bitmap);
      }
    }

    /** `LruCache::pop` with its bytes. */
    method RemoveKey(key: CacheKey)
      requires Counted()
      modifies this`entries, this`currentBytes
      ensures Counted() && entries == Without(old(entries), key)
    {
      var at := Find(entries, key);
      if at < |entries| {
        TotalRemoved(entries, at);
        RemovedKeepsDistinct(entries, at);
        currentBytes := currentBytes - Size(entries[at].bitmap);
        entries := Removed(entries, at);
      }
    }

    /** `LruCache::push` with its bytes; a full cache reports the entry it gave up. */
    method Push(e: Entry)
      requires Counted() && forall f :: f in entries ==> f.key != e.key
      modifies this`entries, this`currentBytes
      ensures Counted() && entries == Pushed(old(entries), e)
    {
      CappedIsConsistent(entries);
      FrontKeepsDistinct(e, Capped(entries));
      TotalConcat([e], Capped(entries));
      TotalOne(e);
      if |entries| >= CAPACITY {
        var n := |entries| - 1;
        currentBytes := currentBytes - Size(entries[n].bitmap);
        entries := entries[..n];
      }
      entries := [e] + entries;
      currentBytes := currentBytes + Size(e.bitmap);
    }

    method Insert(key: CacheKey, bitmap: RawBitmap) returns (shared: RawBitmap)
      requires Valid()
      modifies this`entries, this`currentBytes
      ensures Valid() && shared == bitmap
      ensures entries == Inserted(old(entries), budgetBytes, key, bitmap)
    {
      InsertedIsConsistent(entries, budgetBytes, key, bitmap);
      WithoutIsConsistent(entries, budgetBytes, key);
      hide Total, Find, Fitting, Pushed, Capped;
      shared := bitmap;
      var bitmapBytes := Size(bitmap);
      if bitmapBytes > budgetBytes {
        return;
      }
      RemoveKey(key);
      FittingIsLongest(entries, bitmapBytes, budgetBytes);
      ghost var others := entries;
      EvictFor(bitmapBytes);
      assert entries == others[..|entries|];
      Push(Entry(key, bitmap));
    }

    method SetBudget(budget: nat)
      requires Valid()
      modifies this
      ensures Valid() && budgetBytes == budget
      ensures entries == Fitting(old(entries), 0, budget)
    {
      FittingIsLongest(entries, 0, budget);
      budgetBytes := budget;
      EvictFor(0);
    }

    /** The keys of the document are collected first and then popped one by one. */
    method EvictDocument(doc: DocumentId)
      requires Valid()
      modifies this`entries, this`currentBytes
      ensures Valid() && entries == WithoutDocument(old(entries), doc)
    {
      ghost var was := entries;
      WithoutDocumentIsConsistent(was, doc);
      var keys: seq<CacheKey> := [];
      for i := 0 to |entries|
        invariant forall j :: 0 <= j < i && was[j].key.documentId == doc ==> was[j].key in keys
        invariant forall k :: k in keys ==> k.documentId == doc
      {
        if entries[i].key.documentId == doc {
          keys := keys + [entries[i].key];
        }
      }
      for i := 0 to |keys|
        invariant Counted()
        invariant WithoutDocument(entries, doc) == WithoutDocument(was, doc)
        invariant forall e :: e in entries ==> e in was && e.key !in keys[..i]
      {
        assert keys[..i + 1] == keys[..i] + [keys[i]] && keys[i] in keys;
        KeyOfDocument(entries, keys[i], doc);
        RemoveKey(keys[i]);
      }
      assert keys[..|keys|] == keys;
      forall e | e in entries ensures e.key.documentId != doc {
        var j :| 0 <= j < |was| && was[j] == e;
      }
      NothingOfDocument(entries, doc);
    }

    method Clear()
      modifies this`entries, this`currentBytes
      ensures Valid() && entries == []
    {
      entries, currentBytes := [], 0;
    }

    method GetLargerCompatible(doc: DocumentId, page: PageIndex, rotation: Rotation, invert: bool, w: nat, h: nat)
      returns (r: Option<RawBitmap>)
      ensures r == LargerCompatible(entries, doc, page, rotation, invert, w, h)
    {
      for i := 0 to |entries|
        invariant LargerCompatible(entries, doc, page, rotation, invert, w, h)
               == LargerCompatible(entries[i..], doc, page, rotation, invert, w, h)
      {
        var e := entries[i];
        assert entries[i..][0] == e && entries[i..][1..] == entries[i + 1..];
        if Compatible(e, doc, page, rotation, invert, w, h) {
          return Some(e.bitmap);
        }
      }
      return None;
    }
  }
}
