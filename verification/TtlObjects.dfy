/**
 The TTL cache as an object, and the slice loops of its batch lookup. What other goroutines
 do to the map while a call does not hold the mutex is given as a parameter: `views[n]` is
 the map that the n-th access of the call finds.
 */
module TtlObjects {
  import opened TtlCache

  datatype Item = Item(id: Key, data: string)

  datatype Result<T> = Ok(value: T) | Err

  // ---- removing duplicates in place ----

  predicate Ascending(s: seq<Key>) {
    forall i, j :: 0 <= i < j < |s| ==> s[i].rank <= s[j].rank
  }

  predicate StrictlyAscending(s: seq<Key>) {
    forall i, j :: 0 <= i < j < |s| ==> s[i].rank < s[j].rank
  }

  function Inserted(x: Key, s: seq<Key>): seq<Key> {
    if s == [] || x.rank <= s[0].rank then [x] + s else [s[0]] + Inserted(x, s[1..])
  }

  function Sorted(s: seq<Key>): seq<Key> {
    if s == [] then [] else Inserted(s[0], Sorted(s[1..]))
  }

  lemma {:induction false} InsertedHolds(x: Key, s: seq<Key>, y: Key)
    ensures y in Inserted(x, s) <==> y == x || y in s
  {
    if s != [] && x.rank > s[0].rank {
      InsertedHolds(x, s[1..], y);
      assert s == [s[0]] + s[1..];
    }
  }

  lemma {:induction false} InsertedIsAscending(x: Key, s: seq<Key>)
    requires Ascending(s)
    ensures Ascending(Inserted(x, s)) && |Inserted(x, s)| == |s| + 1
  {
    if s != [] && x.rank > s[0].rank {
      var r := Inserted(x, s[1..]);
      InsertedIsAscending(x, s[1..]);
      forall i | 0 <= i < |r|
        ensures s[0].rank <= r[i].rank
      {
        InsertedHolds(x, s[1..], r[i]);
      }
    }
  }

  lemma {:induction false} SortedIsAscending(s: seq<Key>)
    ensures Ascending(Sorted(s)) && |Sorted(s)| == |s|
    ensures forall y :: y in Sorted(s) <==> y in s
  {
    if s != [] {
      SortedIsAscending(s[1..]);
      InsertedIsAscending(s[0], Sorted(s[1..]));
      forall y {
        InsertedHolds(s[0], Sorted(s[1..]), y);
      }
      assert s == [s[0]] + s[1..];
    }
  }

  /** Stands for the sort of the standard library. */
  method SortSlice(a: array<Key>)
    modifies a
    ensures a[..] == Sorted(old(a[..]))
  {
    SortedIsAscending(a[..]);
    var sorted := Sorted(a[..]);
    for i := 0 to a.Length
      invariant a[..i] == sorted[..i]
    {
      a[i] := sorted[i];
    }
  }

  /** Without the values that equal the one before. */
  function Unique(s: seq<Key>): (r: seq<Key>)
    ensures s != [] ==> r != [] && r[|r| - 1] == s[|s| - 1]
    ensures |r| <= |s|
  {
    if |s| <= 1 then s
    else
      var n := |s| - 1;
      if s[n] == s[n - 1] then Unique(s[..n]) else Unique(s[..n]) + [s[n]]
  }

  lemma UniqueSnoc(s: seq<Key>, i: nat)
    requires 0 < i < |s|
    ensures Unique(s[..i + 1]) == if s[i] == s[i - 1] then Unique(s[..i]) else Unique(s[..i]) + [s[i]]
  {
    assert s[..i + 1][..i] == s[..i];
  }

  lemma {:induction false} UniqueKeepsElements(s: seq<Key>, x: Key)
    ensures x in Unique(s) <==> x in s
  {
    if |s| > 1 {
      var n := |s| - 1;
      UniqueKeepsElements(s[..n], x);
      assert s == s[..n] + [s[n]];
      assert s[..n][n - 1] == s[n - 1];
    }
  }

  lemma {:induction false} UniqueIsStrict(s: seq<Key>)
    requires Ascending(s)
    ensures StrictlyAscending(Unique(s))
  {
    if |s| > 1 {
      UniqueIsStrict(s[..|s| - 1]);
    }
  }

  /** The loop that moves the first of equal neighbours to the front. */
  method Compact(a: array<Key>) returns (n: nat)
    requires a.Length > 0
    modifies a
    ensures n <= a.Length && a[..n] == Unique(old(a[..]))
  {
    ghost var before := a[..];
    var pointer := 0;
    for i := 1 to a.Length
      invariant 0 <= pointer < i
      invariant forall k :: i <= k < a.Length ==> a[k] == before[k]
      invariant a[..pointer + 1] == Unique(before[..i])
    {
      assert a[i] == before[i];
      assert a[pointer] == a[..pointer + 1][pointer] == before[i - 1];
      UniqueSnoc(before, i);
      ghost var kept := a[..pointer + 1];
      if a[pointer] != a[i] {
        pointer := pointer + 1;
        a[pointer] := a[i];
        assert a[..pointer + 1] == kept + [before[i]];
      }
    }
    assert before[..a.Length] == before;
    return pointer + 1;
  }

  /** The first `n` places hold every value of the slice once. */
  method Deduplicate(a: array<Key>) returns (n: nat)
    modifies a
    ensures n <= a.Length && StrictlyAscending(a[..n])
    ensures forall x :: x in a[..n] <==> x in old(a[..])
  {
    if a.Length <= 1 {
      return a.Length;
    }
    SortSlice(a);
    ghost var sorted := a[..];
    SortedIsAscending(old(a[..]));
    n := Compact(a);
    UniqueIsStrict(sorted);
    forall x {
      UniqueKeepsElements(sorted, x);
    }
  }

  // ---- looking up a batch ----

  /** The map that the access number `n` finds; beyond what is given it finds nothing. */
  function View(views: seq<Cache<Item>>, n: nat): Cache<Item> {
    if n < |views| then views[n] else map[]
  }

  /** The keys, in the order of their lookup, that the views did not have. */
  function Misses(order: seq<Key>, views: seq<Cache<Item>>, now: int, maxAge: nat): seq<Key> {
    if order == [] then []
    else
      var n := |order| - 1;
      Misses(order[..n], views, now, maxAge) + if Fresh(View(views, n), order[n], now, maxAge) then [] else [order[n]]
  }

  /** The map holds nothing but what the getter would return. */
  predicate Agrees(cache: Cache<Item>, source: map<Key, Item>) {
    forall key :: key in cache ==> key in source && cache[key].data == source[key]
  }

  ghost predicate AllAgree(views: seq<Cache<Item>>, source: map<Key, Item>) {
    forall n: nat :: Agrees(View(views, n), source)
  }

  predicate Distinct(s: seq<Key>) {
    forall i, j :: 0 <= i < j < |s| ==> s[i] != s[j]
  }

  /** The slice during the loop: the misses so far, then the keys not looked up yet. */
  datatype Scan = Scan(order: seq<Key>, missed: seq<Key>, rest: seq<Key>, hits: map<Key, Item>)

  function SwapOut(rest: seq<Key>): (r: seq<Key>)
    requires rest != []
    ensures |r| == |rest| - 1
  {
    if |rest| == 1 then [] else [rest[|rest| - 1]] + rest[1..|rest| - 1]
  }

  /** Overwriting a key by the last one, in place. */
  lemma SwapAt(keys: seq<Key>, idx: nat, length: nat)
    requires idx < length <= |keys|
    ensures
      var keys' := keys[idx := keys[length - 1]];
      keys'[..idx] == keys[..idx] && keys'[idx..length - 1] == SwapOut(keys[idx..length])
  {
    var rest, moved := keys[idx..length], keys[idx := keys[length - 1]][idx..length - 1];
    forall k | 0 <= k < |moved|
      ensures moved[k] == SwapOut(rest)[k]
    {
      if k > 0 {
        assert SwapOut(rest)[k] == rest[1..|rest| - 1][k - 1] == rest[k];
      }
    }
  }

  function Scanned(scan: Scan, item: Result<Item>): Scan
    requires scan.rest != []
  {
    var key := scan.rest[0];
    match item
    case Err => Scan(scan.order + [key], scan.missed + [key], scan.rest[1..], scan.hits)
    case Ok(value) => Scan(scan.order + [key], scan.missed, SwapOut(scan.rest), scan.hits[key := value])
  }

  /** Every key of the slice is looked up once or still to come. */
  ghost predicate Covers(keys: seq<Key>, order: seq<Key>, rest: seq<Key>) {
    Distinct(order + rest) && |order| + |rest| == |keys| && forall k :: k in keys <==> k in order + rest
  }

  /** What was looked up was either missed or found. */
  ghost predicate Sorts(scan: Scan, source: map<Key, Item>) {
    && (forall k :: k in scan.missed ==> k in scan.order)
    && (forall k :: k in scan.hits <==> k in scan.order && k !in scan.missed)
    && (forall k :: k in scan.hits ==> k in source && scan.hits[k] == source[k])
  }

  lemma ScanCovers(keys: seq<Key>, order: seq<Key>, rest: seq<Key>)
    requires Covers(keys, order, rest) && rest != []
    ensures Covers(keys, order + [rest[0]], rest[1..]) && Covers(keys, order + [rest[0]], SwapOut(rest))
  {
    var tail := rest[1..];
    assert order + [rest[0]] + tail == order + rest;
    SwapKeeps(order + [rest[0]], tail);
    assert SwapOut(rest) == if tail == [] then [] else [tail[|tail| - 1]] + tail[..|tail| - 1];
  }

  /** Moving the last key to the front changes neither the keys nor that they are distinct. */
  lemma SwapKeeps(order: seq<Key>, rest: seq<Key>)
    requires Distinct(order + rest)
    ensures
      var moved := if rest == [] then [] else [rest[|rest| - 1]] + rest[..|rest| - 1];
      Distinct(order + moved) && forall k :: k in order + moved <==> k in order + rest
  {
    if rest != [] {
      var n := |rest| - 1;
      var moved := [rest[n]] + rest[..n];
      assert rest == rest[..n] + [rest[n]];
      forall i, j | 0 <= i < j < |order + moved|
        ensures (order + moved)[i] != (order + moved)[j]
      {
        var o := |order|;
        var i' := if i < o then i else if i == o then o + n else i - 1;
        var j' := if j < o then j else if j == o then o + n else j - 1;
        assert (order + moved)[i] == (order + rest)[i'] && (order + moved)[j] == (order + rest)[j'];
      }
    }
  }

  lemma ScanSorts(keys: seq<Key>, scan: Scan, item: Result<Item>, source: map<Key, Item>)
    requires Covers(keys, scan.order, scan.rest) && scan.rest != [] && Sorts(scan, source)
    requires item.Ok? ==> scan.rest[0] in source && item.value == source[scan.rest[0]]
    ensures Sorts(Scanned(scan, item), source)
  {
    var key := scan.rest[0];
    assert (scan.order + scan.rest)[|scan.order|] == key;
    assert forall i :: 0 <= i < |scan.order| ==> (scan.order + scan.rest)[i] == scan.order[i];
    assert key !in scan.order;
  }

  ghost predicate ScanOk(
    keys: seq<Key>, scan: Scan, views: seq<Cache<Item>>, now: int, maxAge: nat, source: map<Key, Item>)
  {
    && Covers(keys, scan.order, scan.rest) && Sorts(scan, source)
    && scan.missed == Misses(scan.order, views, now, maxAge)
  }

  lemma ScanStarts(keys: seq<Key>, views: seq<Cache<Item>>, now: int, maxAge: nat, source: map<Key, Item>)
    requires Distinct(keys)
    ensures ScanOk(keys, Scan([], [], keys, map[]), views, now, maxAge, source)
  {
    assert [] + keys == keys;
  }

  lemma ScanKeeps(
    keys: seq<Key>, scan: Scan, item: Result<Item>,
    views: seq<Cache<Item>>, now: int, maxAge: nat, source: map<Key, Item>)
    requires ScanOk(keys, scan, views, now, maxAge, source) && scan.rest != []
    requires Agrees(View(views, |scan.order|), source)
    requires item == Looked(View(views, |scan.order|), scan.rest[0], now, maxAge)
    ensures ScanOk(keys, Scanned(scan, item), views, now, maxAge, source)
  {
    ScanCovers(keys, scan.order, scan.rest);
    ScanSorts(keys, scan, item, source);
    assert (scan.order + [scan.rest[0]])[..|scan.order|] == scan.order;
  }

  /** What one lookup gives on the map it finds. */
  function Looked(view: Cache<Item>, key: Key, now: int, maxAge: nat): Result<Item> {
    if Fresh(view, key, now, maxAge) then Ok(view[key].data) else Err
  }

  /** The slice when all keys have been looked up, with `n` lookups behind it. */
  function Complete(scan: Scan, views: seq<Cache<Item>>, now: int, maxAge: nat, n: nat): (r: Scan)
    ensures r.rest == []
    decreases |scan.rest|
  {
    if scan.rest == [] then scan
    else Complete(Scanned(scan, Looked(View(views, n), scan.rest[0], now, maxAge)), views, now, maxAge, n + 1)
  }

  lemma {:induction false} CompleteKeeps(
    keys: seq<Key>, scan: Scan, views: seq<Cache<Item>>, now: int, maxAge: nat, source: map<Key, Item>)
    requires ScanOk(keys, scan, views, now, maxAge, source) && AllAgree(views, source)
    ensures ScanOk(keys, Complete(scan, views, now, maxAge, |scan.order|), views, now, maxAge, source)
    decreases |scan.rest|
  {
    if scan.rest != [] {
      var item := Looked(View(views, |scan.order|), scan.rest[0], now, maxAge);
      ScanKeeps(keys, scan, item, views, now, maxAge, source);
      CompleteKeeps(keys, Scanned(scan, item), views, now, maxAge, source);
    }
  }

  /** The whole loop over distinct keys. */
  function ScanAll(keys: seq<Key>, views: seq<Cache<Item>>, now: int, maxAge: nat): Scan {
    Complete(Scan([], [], keys, map[]), views, now, maxAge, 0)
  }

  /** It looks every key up once, and separates what it missed, in that order, from what it found. */
  lemma ScanAllOk(keys: seq<Key>, views: seq<Cache<Item>>, now: int, maxAge: nat, source: map<Key, Item>)
    requires Distinct(keys) && AllAgree(views, source)
    ensures
      var scan := ScanAll(keys, views, now, maxAge);
      scan.rest == [] && ScanOk(keys, scan, views, now, maxAge, source)
  {
    ScanStarts(keys, views, now, maxAge, source);
    CompleteKeeps(keys, Scan([], [], keys, map[]), views, now, maxAge, source);
  }

  /** What a getter for this partial function answers, in whatever order. */
  ghost predicate AnswersFor(items: seq<Item>, keys: seq<Key>, source: map<Key, Item>) {
    && (forall i :: 0 <= i < |items| ==>
          items[i].id in keys && items[i].id in source && items[i] == source[items[i].id])
    && (forall k :: k in keys && k in source ==> source[k] in items && source[k].id == k)
  }

  function ByID(items: seq<Item>): map<Key, Item> {
    if items == [] then map[]
    else
      var n := |items| - 1;
      ByID(items[..n])[items[n].id := items[n]]
  }

  function Stamped(items: map<Key, Item>, now: int): Cache<Item> {
    map k | k in items :: Entry(now, items[k])
  }

  function Restricted(source: map<Key, Item>, keys: seq<Key>): map<Key, Item> {
    map k | k in keys && k in source :: source[k]
  }

  lemma {:induction false} ByIDHolds(items: seq<Item>, source: map<Key, Item>)
    requires forall i :: 0 <= i < |items| ==> items[i].id in source && items[i] == source[items[i].id]
    ensures forall k :: k in ByID(items) <==> k in source && source[k].id == k && source[k] in items
    ensures forall k :: k in ByID(items) ==> k in source && ByID(items)[k] == source[k]
  {
    if items != [] {
      var n := |items| - 1;
      ByIDHolds(items[..n], source);
      assert items == items[..n] + [items[n]];
    }
  }

  lemma AnswerIsRestriction(items: seq<Item>, keys: seq<Key>, source: map<Key, Item>)
    requires AnswersFor(items, keys, source)
    ensures ByID(items) == Restricted(source, keys)
  {
    ByIDHolds(items, source);
    assert ByID(items).Keys == Restricted(source, keys).Keys;
  }

  lemma {:induction false} DistinctCount(s: seq<Key>)
    requires Distinct(s)
    ensures |set k | k in s| == |s|
  {
    if s == [] {
      assert (set k | k in s) == {};
    } else {
      var n := |s| - 1;
      DistinctCount(s[..n]);
      assert s == s[..n] + [s[n]];
      assert (set k | k in s) == (set k | k in s[..n]) + {s[n]};
    }
  }

  /** Once all distinct keys were looked up, hits and answer are the getter's function on them. */
  lemma HitsAndAnswer(requested: seq<Key>, keys: seq<Key>, scan: Scan, source: map<Key, Item>)
    requires forall k :: k in keys <==> k in requested
    requires Covers(keys, scan.order, scan.rest) && scan.rest == [] && Sorts(scan, source)
    ensures scan.hits + Restricted(source, scan.missed) == Restricted(source, requested)
    ensures Distinct(scan.order) && forall k :: k in scan.order <==> k in requested
    ensures |keys| == |scan.order| == |set k | k in requested|
  {
    assert scan.order + scan.rest == scan.order;
    DistinctCount(scan.order);
    assert (set k | k in scan.order) == set k | k in requested;
    assert (scan.hits + Restricted(source, scan.missed)).Keys == Restricted(source, requested).Keys;
  }

  lemma AddOne(cache: Cache<Item>, found: map<Key, Item>, stored: map<Key, Item>, item: Item, now: int)
    ensures (found + stored)[item.id := item] == found + stored[item.id := item]
    ensures (cache + Stamped(stored, now))[item.id := Entry(now, item)] == cache + Stamped(stored[item.id := item], now)
  {
  }

  /** No operation makes the map disagree with the getter, so every map a call finds agrees. */
  lemma OperationsKeepAgreement(
    cache: Cache<Item>, source: map<Key, Item>, key: Key, asked: seq<Key>, now: int, maxAge: nat)
    requires Agrees(cache, source)
    ensures Agrees(cache - {key}, source) && Agrees(map[], source) && Agrees(Purged(cache, now, maxAge), source)
    ensures Agrees(cache + Stamped(Restricted(source, asked), now), source)
    ensures key in source ==> Agrees(cache[key := Entry(now, source[key])], source)
  {
  }

  class TTLCache {
    const maxAge: nat
    var cache: Cache<Item>
    var countHit: nat
    var countMiss: nat

    constructor (maxAge: nat)
      ensures this.maxAge == maxAge && cache == map[] && countHit == 0 && countMiss == 0
    {
      this.maxAge, cache, countHit, countMiss := maxAge, map[], 0, 0;
    }

    method Fetch(key: Key, now: int) returns (item: Result<Item>)
      modifies `countHit, `countMiss
      ensures item == if Fresh(cache, key, now, maxAge) then Ok(cache[key].data) else Err
      ensures countHit == old(countHit) + if item.Ok? then 1 else 0
      ensures countMiss == old(countMiss) + if item.Ok? then 0 else 1
    {
      if key !in cache || now - cache[key].added > maxAge {
        countMiss := countMiss + 1;
        return Err;
      }
      countHit := countHit + 1;
      return Ok(cache[key].data);
    }

    /** One round of the loop: a miss stays in the slice, the last key takes the place of a hit. */
    method LookupNext(
      keys: array<Key>, idx: nat, length: nat, now: int, view: Cache<Item>, m: map<Key, Item>, ghost scan: Scan)
      returns (m': map<Key, Item>, idx': nat, length': nat, ghost scan': Scan)
      requires idx < length <= keys.Length
      requires keys[..idx] == scan.missed && keys[idx..length] == scan.rest != [] && m == scan.hits
      modifies this, keys
      ensures cache == view && scan' == Scanned(scan, Looked(view, scan.rest[0], now, maxAge))
      ensures idx <= idx' <= length' <= length && idx' - idx + length - length' == 1
      ensures keys[..idx'] == scan'.missed && keys[idx'..length'] == scan'.rest && m' == scan'.hits
      ensures countHit + countMiss == old(countHit + countMiss) + 1 && countMiss == old(countMiss) + idx' - idx
    {
      ghost var before := keys[..];
      var key := keys[idx];
      cache := view;
      var item := Fetch(key, now);
      scan' := Scanned(scan, item);
      if item.Err? {
        return m, idx + 1, length, scan';
      }
      keys[idx] := keys[length - 1];
      SwapAt(before, idx, length);
      assert keys[..] == before[idx := before[length - 1]];
      assert keys[idx..length - 1] == keys[..][idx..length - 1] && keys[..idx] == keys[..][..idx];
      return m[key := item.value], idx, length - 1, scan';
    }

    /**
     The loop of the batch lookup over the first `size` keys: it leaves in front what the scan
     of these keys misses, and returns what it finds.
     */
    method TakeHits(keys: array<Key>, size: nat, now: int, views: seq<Cache<Item>>)
      returns (m: map<Key, Item>, length: nat)
      requires size <= keys.Length
      modifies this, keys
      ensures
        var scan := ScanAll(old(keys[..size]), views, now, maxAge);
        length <= size && keys[..length] == scan.missed && m == scan.hits
      ensures countHit + countMiss == old(countHit + countMiss) + size && countMiss == old(countMiss) + length
      ensures cache == if size == 0 then old(cache) else View(views, size - 1)
    {
      m := map[];
      var idx := 0;
      var visits := 0;
      length := size;
      ghost var start := keys[..size];
      ghost var scan := Scan([], [], start, map[]);
      ghost var goal := ScanAll(start, views, now, maxAge);
      while idx < length
        invariant 0 <= idx <= length <= size && visits + length == size + idx
        invariant goal == Complete(scan, views, now, maxAge, visits)
        invariant keys[..idx] == scan.missed && keys[idx..length] == scan.rest && m == scan.hits
        invariant countHit + countMiss == old(countHit + countMiss) + visits && countMiss == old(countMiss) + idx
        invariant cache == if visits == 0 then old(cache) else View(views, visits - 1)
        decreases length - idx
      {
        m, idx, length, scan := LookupNext(keys, idx, length, now, View(views, visits), m, scan);
        visits := visits + 1;
      }
      assert scan.rest == [] && goal == scan;
    }

    /** Adds what the getter found to the result and to the map, stamped with the start of the call. */
    method Store(items: seq<Item>, found: map<Key, Item>, now: int) returns (m: map<Key, Item>)
      modifies `cache
      ensures m == found + ByID(items)
      ensures cache == old(cache) + Stamped(ByID(items), now)
    {
      m := found;
      for i := 0 to |items|
        invariant m == found + ByID(items[..i])
        invariant cache == old(cache) + Stamped(ByID(items[..i]), now)
      {
        assert items[..i + 1][..i] == items[..i];
        AddOne(old(cache), found, ByID(items[..i]), items[i], now);
        var id := items[i].id;
        m := m[id := items[i]];
        cache := cache[id := Entry(now, items[i])];
      }
      assert items[..|items|] == items;
    }

    /** What the batch lookup does before it asks the getter. */
    method LookupAll(keys: array<Key>, now: int, views: seq<Cache<Item>>, ghost source: map<Key, Item>)
      returns (m: map<Key, Item>, asked: seq<Key>, ghost order: seq<Key>)
      requires AllAgree(views, source)
      modifies this, keys
      ensures Distinct(order) && forall k :: k in order <==> k in old(keys[..])
      ensures asked == Misses(order, views, now, maxAge)
      ensures m + Restricted(source, asked) == Restricted(source, old(keys[..]))
      ensures countHit + countMiss == old(countHit + countMiss) + |set k | k in old(keys[..])|
      ensures countMiss == old(countMiss) + |asked|
    {
      var size := Deduplicate(keys);
      ghost var distinct := keys[..size];
      var hits, length := TakeHits(keys, size, now, views);
      ghost var scan := ScanAll(distinct, views, now, maxAge);
      ScanAllOk(distinct, views, now, maxAge, source);
      HitsAndAnswer(old(keys[..]), distinct, scan, source);
      return hits, keys[..length], scan.order;
    }

    /**
     The batch lookup with a getter that is a fixed partial function, which may fail;
     `after` is the map the call finds when the getter has answered. The
     result is that function restricted to the requested keys, whatever the cache held; the
     getter is asked for exactly the keys that were missed, each once, and not at all if
     there are none; and every distinct key counts as one hit or one miss.
     */
    method Map(
      keys: array<Key>, now: int, views: seq<Cache<Item>>,
      find: seq<Key> -> Result<seq<Item>>, after: Cache<Item>, ghost source: map<Key, Item>)
      returns (result: Result<map<Key, Item>>, asked: seq<Key>, ghost order: seq<Key>)
      requires AllAgree(views, source)
      requires forall ks :: find(ks).Ok? ==> AnswersFor(find(ks).value, ks, source)
      modifies this, keys
      ensures Distinct(order) && forall k :: k in order <==> k in old(keys[..])
      ensures asked == Misses(order, views, now, maxAge)
      ensures result ==
        if asked != [] && find(asked).Err? then Err else Ok(Restricted(source, old(keys[..])))
      ensures countHit + countMiss == old(countHit + countMiss) + |set k | k in old(keys[..])|
      ensures countMiss == old(countMiss) + |asked|
      ensures asked != [] && result.Ok? ==>
        cache == after + Stamped(Restricted(source, asked), now)
    {
      var m;
      m, asked, order := LookupAll(keys, now, views, source);
      if asked == [] {
        assert m + Restricted(source, []) == m;
        return Ok(m), asked, order;
      }
      var items := find(asked);
      if items.Err? {
        return Err, asked, order;
      }
      AnswerIsRestriction(items.value, asked, source);
      cache := after;
      m := Store(items.value, m, now);
      result := Ok(m);
    }

    /** One lookup; `reply` is what the getter answers if it is asked, `meanwhile` the map it then finds. */
    method Get(key: Key, now: int, reply: Result<Item>, meanwhile: Cache<Item>) returns (result: Result<Item>)
      modifies this
      ensures
        if Fresh(old(cache), key, now, maxAge) then
          && result == Ok(old(cache)[key].data) && cache == old(cache)
          && countHit == old(countHit) + 1 && countMiss == old(countMiss)
        else
          && result == reply && countHit == old(countHit) && countMiss == old(countMiss) + 1
          && cache == if reply.Ok? then meanwhile[key := Entry(now, reply.value)] else old(cache)
    {
      result := Fetch(key, now);
      if result.Ok? {
        return;
      }
      if reply.Err? {
        return Err;
      }
      cache := meanwhile[key := Entry(now, reply.value)];
      return reply;
    }

    /**
     After an eviction no lookup of the key is served, whatever its time, and lookups of
     other keys are served as before; agreement with the getter is kept.
     */
    method Evict(key: Key, ghost source: map<Key, Item>)
      requires Agrees(cache, source)
      modifies `cache
      ensures Agrees(cache, source) && cache.Keys == old(cache).Keys - {key}
      ensures forall now :: !Fresh(cache, key, now, maxAge)
      ensures forall k, now :: k != key ==>
        && (Fresh(cache, k, now, maxAge) <==> Fresh(old(cache), k, now, maxAge))
        && (Fresh(cache, k, now, maxAge) ==> cache[k] == old(cache)[k])
    {
      cache := cache - {key};
    }

    /** After evicting everything no lookup at all is served. */
    method EvictAll(ghost source: map<Key, Item>)
      modifies `cache
      ensures Agrees(cache, source)
      ensures forall k, now :: !Fresh(cache, k, now, maxAge)
    {
      cache := map[];
    }

    /** One tick of the purger: drops exactly the entries that have reached the maximal age. */
    method Purge(now: int)
      modifies `cache
      ensures cache == Purged(old(cache), now, maxAge)
    {
      var todo := cache.Keys;
      while todo != {}
        invariant todo <= cache.Keys <= old(cache).Keys
        invariant forall k :: k in cache ==> cache[k] == old(cache)[k]
        invariant forall k :: k in old(cache) && k !in todo ==>
          (k in cache <==> now - old(cache)[k].added < maxAge)
        decreases todo
      {
        var id :| id in todo;
        todo := todo - {id};
        if now - cache[id].added >= maxAge {
          cache := cache - {id};
        }
      }
    }
  }
}
