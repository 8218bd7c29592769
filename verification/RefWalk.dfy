/**
 Listing of git references: the walk over the entries git prints, the instructor that
 decides about each entry, and pagination wrapped around an instructor.
 */
module RefWalk {

  type Entry = map<string, string>

  datatype Instruction = Stop | Handle | Skip | Error

  type Instructor = Entry -> Instruction

  const MAX_INT32 := 0x7FFF_FFFF
  const MAX_INT64 := 0x7FFF_FFFF_FFFF_FFFF

  predicate IsInt32(x: int) {
    -0x8000_0000 <= x <= MAX_INT32
  }

  /** The value an `int32` keeps of an integer. */
  function Wrap32(x: int): (r: int)
    ensures IsInt32(r)
    ensures IsInt32(x) ==> r == x
  {
    (x + 0x8000_0000) % 0x1_0000_0000 - 0x8000_0000
  }

  function DefaultInstructor(e: Entry): Instruction {
    Handle
  }

  const OBJECT_TYPE := "objecttype"

  function ObjectTypeInstructor(types: seq<string>): Instructor {
    (e: Entry) =>
      if OBJECT_TYPE !in e then Error
      else if e[OBJECT_TYPE] in types then Handle
      else Skip
  }

  // ---- what a listing should contain ----

  /** The entries an instructor selects, up to the first one at which it stops or fails. */
  function Selected(entries: seq<Entry>, inner: Instructor): (r: seq<Entry>)
    ensures |r| <= |entries|
  {
    if entries == [] then []
    else
      match inner(entries[0])
      case Handle => [entries[0]] + Selected(entries[1..], inner)
      case Skip => Selected(entries[1..], inner)
      case Stop => []
      case Error => []
  }

  /** The walk meets an entry the instructor fails on. */
  predicate Fails(entries: seq<Entry>, inner: Instructor) {
    entries != [] &&
    match inner(entries[0])
    case Error => true
    case Stop => false
    case _ => Fails(entries[1..], inner)
  }

  /** The entry carries one of the object types. */
  predicate HasType(e: Entry, types: seq<string>) {
    "objecttype" in e && e["objecttype"] in types
  }

  /**
   With the filter for object types a listing fails exactly if some entry carries no type, and
   otherwise has every entry of one of the types, as often as it occurs, and no other.
   */
  lemma {:induction false} TypeFilterSelectsTypes(entries: seq<Entry>, types: seq<string>, e: Entry)
    ensures
      Fails(entries, ObjectTypeInstructor(types)) <==>
      exists i :: 0 <= i < |entries| && "objecttype" !in entries[i]
    ensures !Fails(entries, ObjectTypeInstructor(types)) ==>
      multiset(Selected(entries, ObjectTypeInstructor(types)))[e] ==
      if HasType(e, types) then multiset(entries)[e] else 0
  {
    if entries != [] {
      TypeFilterSelectsTypes(entries[1..], types, e);
      assert entries == [entries[0]] + entries[1..];
    }
  }

  function Max0(x: int): nat {
    if x < 0 then 0 else x
  }

  function Clip(n: nat, length: nat): nat {
    if n < length then n else length
  }

  /** The elements number `from + 1` up to `to`, as far as they exist. */
  function Slice<T>(s: seq<T>, from: nat, to: nat): seq<T> {
    var a, b := Clip(from, |s|), Clip(to, |s|);
    if a < b then s[a..b] else []
  }

  datatype Page = Unpaged | Paged(startAfter: int, endAfter: int)

  /** Pages below the first mean the first. */
  function PageNumber(page: int): int {
    if page < 1 then 1 else page
  }

  /** Pagination as requested by a caller; the bounds are computed in 32 bits. */
  function Pagination(page: int, pageSize: int): Page
    requires IsInt32(page) && IsInt32(pageSize)
  {
    if pageSize < 1 then Unpaged
    else
      var p := PageNumber(page);
      Paged(Wrap32((p - 1) * pageSize), Wrap32(p * pageSize))
  }

  datatype Listing = Walked(entries: seq<Entry>) | WalkFailed

  function Cons(e: Entry, rest: Listing): Listing {
    match rest
    case Walked(entries) => Walked([e] + entries)
    case WalkFailed => WalkFailed
  }

  /** The walk with a paging counter at `c`, over at most `distance` entries. */
  function Walk(entries: seq<Entry>, inner: Instructor, page: Page, c: int, distance: nat): Listing
    requires IsInt32(c)
  {
    if entries == [] || distance == 0 then Walked([])
    else
      match inner(entries[0])
      case Error => WalkFailed
      case Stop => Walked([])
      case Skip => Walk(entries[1..], inner, page, c, distance - 1)
      case Handle =>
        if page.Unpaged? then Cons(entries[0], Walk(entries[1..], inner, page, c, distance - 1))
        else
          var c' := Wrap32(c + 1);
          if c' <= page.startAfter then Walk(entries[1..], inner, page, c', distance - 1)
          else if c' > page.endAfter then Walked([])
          else Cons(entries[0], Walk(entries[1..], inner, page, c', distance - 1))
  }

  /** A listing as the services call it; the walk covers at most 2^31 - 1 entries. */
  function List(entries: seq<Entry>, inner: Instructor, page: int, pageSize: int): Listing
    requires IsInt32(page) && IsInt32(pageSize)
  {
    Walk(entries, inner, Pagination(page, pageSize), 0, MAX_INT32)
  }

  lemma SliceOfCons<T>(x: T, s: seq<T>, from: nat, to: nat)
    ensures from > 0 ==> Slice([x] + s, from, to) == Slice(s, from - 1, Max0(to - 1))
    ensures from == 0 && to > 0 ==> Slice([x] + s, 0, to) == [x] + Slice(s, 0, to - 1)
  {
  }

  /** How many selected entries the walk looks at before it stops by itself. */
  function Reach(from: nat, to: nat): nat {
    if from < to then to else from
  }

  /** What a walk over these entries should give between the two bounds. */
  function Expected(entries: seq<Entry>, inner: Instructor, from: nat, to: nat): Listing {
    if Fails(entries, inner) && |Selected(entries, inner)| <= Reach(from, to) then WalkFailed
    else Walked(Slice(Selected(entries, inner), from, to))
  }

  lemma ExpectedOfHandled(e: Entry, rest: seq<Entry>, inner: Instructor, from: nat, to: nat)
    requires inner(e) == Handle
    ensures from > 0 ==> Expected([e] + rest, inner, from, to) == Expected(rest, inner, from - 1, Max0(to - 1))
    ensures from == 0 && to > 0 ==> Expected([e] + rest, inner, 0, to) == Cons(e, Expected(rest, inner, 0, to - 1))
    ensures from == 0 && to == 0 ==> Expected([e] + rest, inner, 0, 0) == Walked([])
  {
    assert ([e] + rest)[1..] == rest;
    SliceOfCons(e, Selected(rest, inner), from, to);
  }

  lemma WalkOfHandled(entries: seq<Entry>, inner: Instructor, page: Page, c: nat, distance: nat)
    requires page.Paged? && c < MAX_INT32 && distance > 0 && entries != [] && inner(entries[0]) == Handle
    ensures
      Walk(entries, inner, page, c, distance) ==
      if c < page.startAfter then Walk(entries[1..], inner, page, c + 1, distance - 1)
      else if c >= page.endAfter then Walked([])
      else Cons(entries[0], Walk(entries[1..], inner, page, c + 1, distance - 1))
  {
    assert Wrap32(c + 1) == c + 1;
  }

  lemma HandledWalkIsSlice(entries: seq<Entry>, inner: Instructor, page: Page, c: nat, distance: nat)
    requires page.Paged? && c < MAX_INT32 && distance > 0 && entries != [] && inner(entries[0]) == Handle
    requires Walk(entries[1..], inner, page, c + 1, distance - 1) ==
      Expected(entries[1..], inner, Max0(page.startAfter - c - 1), Max0(page.endAfter - c - 1))
    ensures Walk(entries, inner, page, c, distance) ==
      Expected(entries, inner, Max0(page.startAfter - c), Max0(page.endAfter - c))
  {
    WalkOfHandled(entries, inner, page, c, distance);
    ExpectedOfHandled(entries[0], entries[1..], inner, Max0(page.startAfter - c), Max0(page.endAfter - c));
    assert entries == [entries[0]] + entries[1..];
  }

  /** The counting walk handles exactly a slice of the selected entries, whatever its two bounds are. */
  lemma {:induction false} WalkHandlesSlice(entries: seq<Entry>, inner: Instructor, page: Page, c: nat, distance: nat)
    requires page.Paged? && c + |entries| <= MAX_INT32 && |entries| <= distance
    ensures Walk(entries, inner, page, c, distance) ==
      Expected(entries, inner, Max0(page.startAfter - c), Max0(page.endAfter - c))
    decreases |entries|
  {
    if entries != [] {
      var e, rest := entries[0], entries[1..];
      match inner(e)
      case Handle =>
        WalkHandlesSlice(rest, inner, page, c + 1, distance - 1);
        HandledWalkIsSlice(entries, inner, page, c, distance);
      case Skip => WalkHandlesSlice(rest, inner, page, c, distance - 1);
      case Stop =>
      case Error =>
    }
  }

  /** Without pagination the walk handles everything that is selected. */
  lemma {:induction false} UnpagedWalkHandlesAll(entries: seq<Entry>, inner: Instructor, c: int, distance: nat)
    requires IsInt32(c) && |entries| <= distance
    ensures Walk(entries, inner, Unpaged, c, distance) == Expected(entries, inner, 0, |entries|)
    decreases |entries|
  {
    if entries != [] {
      UnpagedWalkHandlesAll(entries[1..], inner, c, distance - 1);
    }
  }

  // ---- pages ----

  /** The page lies in the range of the 32-bit bounds. */
  predicate InRange(page: int, pageSize: int) {
    IsInt32(page) && IsInt32(pageSize) && pageSize >= 1 && PageNumber(page) * pageSize <= MAX_INT32
  }

  /** The places before the page and up to its end, as the caller means them. */
  function From(page: int, pageSize: int): (from: nat)
    requires pageSize >= 1
    ensures from == PageNumber(page) * pageSize - pageSize
  {
    assert (PageNumber(page) - 1) * pageSize == PageNumber(page) * pageSize - pageSize;
    assert (PageNumber(page) - 1) * pageSize >= 0;
    (PageNumber(page) - 1) * pageSize
  }

  function To(page: int, pageSize: int): (to: nat)
    requires pageSize >= 1
    ensures to == From(page, pageSize) + pageSize
  {
    From(page, pageSize) + pageSize
  }

  lemma BoundsInRange(page: int, pageSize: int)
    requires IsInt32(page) && IsInt32(pageSize) && pageSize >= 1
    ensures Pagination(page, pageSize) == Paged(Wrap32(From(page, pageSize)), Wrap32(To(page, pageSize)))
    ensures InRange(page, pageSize) <==> To(page, pageSize) <= MAX_INT32
    ensures InRange(page, pageSize) ==> Pagination(page, pageSize) == Paged(From(page, pageSize), To(page, pageSize))
  {
  }

  /**
   As long as the bounds fit 32 bits, a page handles exactly its slice of what the inner
   instructor selects; it fails exactly if the instructor fails on an entry the page
   gets to see.
   */
  lemma PageIsSliceOfSelected(entries: seq<Entry>, inner: Instructor, page: int, pageSize: int)
    requires InRange(page, pageSize) && |entries| <= MAX_INT32
    ensures List(entries, inner, page, pageSize) ==
      Expected(entries, inner, From(page, pageSize), To(page, pageSize))
  {
    BoundsInRange(page, pageSize);
    WalkHandlesSlice(entries, inner, Pagination(page, pageSize), 0, MAX_INT32);
  }

  /** The first `k` pages, one after the other. */
  function FirstPages(entries: seq<Entry>, inner: Instructor, pageSize: int, k: nat): seq<Entry>
    requires IsInt32(k) && IsInt32(pageSize)
    decreases k
  {
    if k == 0 then []
    else
      FirstPages(entries, inner, pageSize, k - 1)
      + match List(entries, inner, k, pageSize)
        case Walked(page) => page
        case WalkFailed => []
  }

  lemma SlicesConcatenate<T>(s: seq<T>, from: nat, to: nat)
    requires from <= to
    ensures Slice(s, 0, from) + Slice(s, from, to) == Slice(s, 0, to)
  {
  }

  /** Where page `k` begins the pages before it end. */
  lemma PagesAdjoin(k: nat, pageSize: int)
    requires k > 0 && InRange(k, pageSize)
    ensures InRange(k - 1, pageSize) && From(k, pageSize) == (k - 1) * pageSize && To(k, pageSize) == k * pageSize
  {
    assert (k - 1) * pageSize == k * pageSize - pageSize;
  }

  /** Successive pages concatenate to what is selected, without loss or repetition. */
  lemma {:induction false} PagesConcatenate(entries: seq<Entry>, inner: Instructor, pageSize: int, k: nat)
    requires InRange(k, pageSize) && |entries| <= MAX_INT32 && !Fails(entries, inner)
    ensures 0 <= k * pageSize
    ensures FirstPages(entries, inner, pageSize, k) == Slice(Selected(entries, inner), 0, k * pageSize)
    ensures |Selected(entries, inner)| <= k * pageSize ==>
              FirstPages(entries, inner, pageSize, k) == Selected(entries, inner)
    decreases k
  {
    if k > 0 {
      PagesAdjoin(k, pageSize);
      var from, to := From(k, pageSize), To(k, pageSize);
      PagesConcatenate(entries, inner, pageSize, k - 1);
      PageIsSliceOfSelected(entries, inner, k, pageSize);
      SlicesConcatenate(Selected(entries, inner), from, to);
      assert FirstPages(entries, inner, pageSize, k) == Slice(Selected(entries, inner), 0, to);
    }
  }

  /** With the default instructor, everything is selected and nothing fails. */
  lemma {:induction false} DefaultSelectsAll(entries: seq<Entry>)
    ensures Selected(entries, DefaultInstructor) == entries && !Fails(entries, DefaultInstructor)
  {
    if entries != [] {
      DefaultSelectsAll(entries[1..]);
      assert entries == [entries[0]] + entries[1..];
    }
  }

  // ---- the listings of branches and tags ----

  /** What a walk distance asks for: zero or less means no limit. */
  function Distance(maxWalkDistance: int): nat {
    if maxWalkDistance <= 0 then MAX_INT32 else maxWalkDistance
  }

  /** Branches are not filtered, and the walk is limited to the end of the page. */
  function ListBranches(entries: seq<Entry>, page: int, pageSize: int): Listing
    requires IsInt32(page) && IsInt32(pageSize)
  {
    var p := Pagination(page, pageSize);
    Walk(entries, DefaultInstructor, p, 0, Distance(if p.Paged? then p.endAfter else 0))
  }

  /** Tags are filtered by the type of their object, and the walk is not limited. */
  function ListTags(entries: seq<Entry>, types: seq<string>, page: int, pageSize: int): Listing
    requires IsInt32(page) && IsInt32(pageSize)
  {
    List(entries, ObjectTypeInstructor(types), page, pageSize)
  }

  lemma {:induction false} WalkStopsAtEnd(entries: seq<Entry>, page: Page, c: nat, distance: nat, more: nat)
    requires page.Paged? && c + |entries| <= MAX_INT32 && c + distance == page.endAfter
    requires distance <= more && |entries| <= more
    ensures Walk(entries, DefaultInstructor, page, c, distance) == Walk(entries, DefaultInstructor, page, c, more)
    decreases |entries|
  {
    if entries != [] && distance > 0 {
      WalkStopsAtEnd(entries[1..], page, c + 1, distance - 1, more - 1);
    } else if entries != [] {
      SkipsToEnd(entries, page, c, more);
    }
  }

  /** Beyond the end of the page nothing is handled, whatever the start is. */
  lemma {:induction false} SkipsToEnd(entries: seq<Entry>, page: Page, c: nat, distance: nat)
    requires page.Paged? && c + |entries| <= MAX_INT32 && c >= page.endAfter
    ensures Walk(entries, DefaultInstructor, page, c, distance) == Walked([])
    decreases |entries|
  {
    if entries != [] && distance > 0 {
      SkipsToEnd(entries[1..], page, c + 1, distance - 1);
    }
  }

  /**
   Asking git for no more entries than the computed end of the page leaves the listing of
   branches unchanged, for every page and size, also where the end does not fit 32 bits.
   */
  lemma LimitedWalkIsEnough(entries: seq<Entry>, page: int, pageSize: int)
    requires IsInt32(page) && IsInt32(pageSize) && |entries| <= MAX_INT32
    ensures ListBranches(entries, page, pageSize) == List(entries, DefaultInstructor, page, pageSize)
  {
    var p := Pagination(page, pageSize);
    if p.Paged? && p.endAfter > 0 {
      WalkStopsAtEnd(entries, p, 0, p.endAfter, MAX_INT32);
    }
  }

  // ---- pages beyond the 32-bit bounds ----

  /** The guard of the pagination, with the largest value of Go's `int`. */
  predicate Rejected(page: int, pageSize: int, maxInt: int) {
    pageSize >= 1 && PageNumber(page) * pageSize > maxInt
  }

  /**
   Where `int` has 64 bits the guard never rejects a page; where it has 32 bits it lets
   exactly the pages through whose bounds fit.
   */
  lemma OverflowGuard(page: int, pageSize: int)
    requires IsInt32(page) && IsInt32(pageSize)
    ensures !Rejected(page, pageSize, MAX_INT64)
    ensures pageSize >= 1 ==> (!Rejected(page, pageSize, MAX_INT32) <==> InRange(page, pageSize))
  {
    if pageSize >= 1 {
      ProductGrows(PageNumber(page), MAX_INT32, pageSize);
    }
  }

  lemma ProductGrows(a: nat, b: nat, c: nat)
    requires a <= b
    ensures a * c <= b * c
  {
  }

  /** A page in terms of the bounds actually computed. */
  lemma PageAsComputed(entries: seq<Entry>, inner: Instructor, page: int, pageSize: int)
    requires IsInt32(page) && IsInt32(pageSize) && pageSize >= 1 && |entries| <= MAX_INT32 && !Fails(entries, inner)
    ensures List(entries, inner, page, pageSize) ==
      Walked(Slice(Selected(entries, inner), Max0(Wrap32(From(page, pageSize))), Max0(Wrap32(To(page, pageSize)))))
  {
    BoundsInRange(page, pageSize);
    WalkHandlesSlice(entries, inner, Pagination(page, pageSize), 0, MAX_INT32);
  }

  /** The listing is the page the caller asked for, of what the instructor selects. */
  ghost predicate IsPage(listing: Listing, entries: seq<Entry>, inner: Instructor, page: int, pageSize: int)
    requires pageSize >= 1
  {
    listing == Walked(Slice(Selected(entries, inner), From(page, pageSize), To(page, pageSize)))
  }

  /**
   For the page to be safe its end must fit 32 bits; beyond that only pages that start
   past every possible entry and whose wrapped bounds happen to be empty come out right.
   */
  predicate SafePage(page: int, pageSize: int)
    requires pageSize >= 1
  {
    || To(page, pageSize) <= MAX_INT32
    || (From(page, pageSize) >= MAX_INT32 && Wrap32(To(page, pageSize)) <= Max0(Wrap32(From(page, pageSize))))
  }

  function Copies(e: Entry, n: nat): (r: seq<Entry>)
    ensures |r| == n
  {
    if n == 0 then [] else [e] + Copies(e, n - 1)
  }

  lemma {:induction false} CopiesAreSelected(e: Entry, n: nat, inner: Instructor)
    requires inner(e) == Handle
    ensures Selected(Copies(e, n), inner) == Copies(e, n) && !Fails(Copies(e, n), inner)
  {
    if n > 0 {
      CopiesAreSelected(e, n - 1, inner);
      assert Copies(e, n)[1..] == Copies(e, n - 1);
    }
  }

  lemma SafePagesAreRight(entries: seq<Entry>, inner: Instructor, page: int, pageSize: int)
    requires IsInt32(page) && IsInt32(pageSize) && pageSize >= 1 && SafePage(page, pageSize)
    requires |entries| <= MAX_INT32 && !Fails(entries, inner)
    ensures IsPage(List(entries, inner, page, pageSize), entries, inner, page, pageSize)
  {
    PageAsComputed(entries, inner, page, pageSize);
  }

  /** A number of entries for which an unsafe page comes out wrong. */
  function Witness(page: int, pageSize: int): int
    requires pageSize >= 1
  {
    if From(page, pageSize) < MAX_INT32 then From(page, pageSize) + 1 else Wrap32(To(page, pageSize))
  }

  lemma UnsafePagesAreWrong(e: Entry, inner: Instructor, page: int, pageSize: int)
    requires IsInt32(page) && IsInt32(pageSize) && pageSize >= 1 && !SafePage(page, pageSize) && inner(e) == Handle
    ensures 0 <= Witness(page, pageSize) <= MAX_INT32
    ensures
      var entries := Copies(e, Witness(page, pageSize));
      !Fails(entries, inner) && !IsPage(List(entries, inner, page, pageSize), entries, inner, page, pageSize)
  {
    var n := Witness(page, pageSize);
    CopiesAreSelected(e, n, inner);
    PageAsComputed(Copies(e, n), inner, page, pageSize);
  }

  /**
   With any filter that selects something at all, exactly the safe pages are right for every
   listing the walk can cover without the filter failing.
   */
  lemma PagesAreRightIff(e: Entry, inner: Instructor, page: int, pageSize: int)
    requires IsInt32(page) && IsInt32(pageSize) && pageSize >= 1 && inner(e) == Handle
    ensures
      (forall entries: seq<Entry> :: |entries| <= MAX_INT32 && !Fails(entries, inner) ==>
        IsPage(List(entries, inner, page, pageSize), entries, inner, page, pageSize))
      <==> SafePage(page, pageSize)
  {
    if SafePage(page, pageSize) {
      forall entries: seq<Entry> | |entries| <= MAX_INT32 && !Fails(entries, inner) {
        SafePagesAreRight(entries, inner, page, pageSize);
      }
    } else {
      UnsafePagesAreWrong(e, inner, page, pageSize);
    }
  }

  /** So it is for the listing of branches, with its limited walk. */
  lemma BranchPagesAreRightIff(page: int, pageSize: int)
    requires IsInt32(page) && IsInt32(pageSize) && pageSize >= 1
    ensures
      (forall entries: seq<Entry> :: |entries| <= MAX_INT32 ==>
        IsPage(ListBranches(entries, page, pageSize), entries, DefaultInstructor, page, pageSize))
      <==> SafePage(page, pageSize)
  {
    if SafePage(page, pageSize) {
      forall entries: seq<Entry> | |entries| <= MAX_INT32
        ensures IsPage(ListBranches(entries, page, pageSize), entries, DefaultInstructor, page, pageSize)
      {
        DefaultSelectsAll(entries);
        SafePagesAreRight(entries, DefaultInstructor, page, pageSize);
        LimitedWalkIsEnough(entries, page, pageSize);
      }
    } else {
      UnsafePagesAreWrong(map[], DefaultInstructor, page, pageSize);
      LimitedWalkIsEnough(Copies(map[], Witness(page, pageSize)), page, pageSize);
    }
  }

  /** And for the listing of tags, filtered by any non-empty list of types. */
  lemma TagPagesAreRightIff(types: seq<string>, page: int, pageSize: int)
    requires IsInt32(page) && IsInt32(pageSize) && pageSize >= 1 && types != []
    ensures
      (forall entries: seq<Entry> :: |entries| <= MAX_INT32 && !Fails(entries, ObjectTypeInstructor(types)) ==>
        IsPage(ListTags(entries, types, page, pageSize), entries, ObjectTypeInstructor(types), page, pageSize))
      <==> SafePage(page, pageSize)
  {
    var e: Entry := map[OBJECT_TYPE := types[0]];
    if SafePage(page, pageSize) {
      forall entries: seq<Entry> | |entries| <= MAX_INT32 && !Fails(entries, ObjectTypeInstructor(types))
        ensures IsPage(ListTags(entries, types, page, pageSize), entries, ObjectTypeInstructor(types), page, pageSize)
      {
        SafePagesAreRight(entries, ObjectTypeInstructor(types), page, pageSize);
      }
    } else {
      UnsafePagesAreWrong(e, ObjectTypeInstructor(types), page, pageSize);
      assert !IsPage(ListTags(Copies(e, Witness(page, pageSize)), types, page, pageSize),
                     Copies(e, Witness(page, pageSize)), ObjectTypeInstructor(types), page, pageSize);
    }
  }

  /** For instance, page 65537 of 65536 branches each repeats page 1. */
  lemma FarPageRepeatsFirst(entries: seq<Entry>)
    requires |entries| <= MAX_INT32
    ensures ListBranches(entries, 65537, 65536) == ListBranches(entries, 1, 65536)
  {
    LimitedWalkIsEnough(entries, 65537, 65536);
    LimitedWalkIsEnough(entries, 1, 65536);
    DefaultSelectsAll(entries);
    PageAsComputed(entries, DefaultInstructor, 65537, 65536);
    PageAsComputed(entries, DefaultInstructor, 1, 65536);
  }

  // ---- the imperative walk ----

  /** The instructor built by the pagination wrapper: a closure that counts. */
  class Paginator {
    const inner: Instructor
    const page: Page
    var c: int

    constructor (inner: Instructor, page: Page)
      ensures this.inner == inner && this.page == page && c == 0
    {
      this.inner, this.page, c := inner, page, 0;
    }

    method Instruct(e: Entry) returns (inst: Instruction)
      requires IsInt32(c)
      modifies this
      ensures IsInt32(c)
      ensures inner(e) != Handle || page.Unpaged? ==> inst == inner(e) && c == old(c)
      ensures inner(e) == Handle && page.Paged? ==>
        && c == Wrap32(old(c) + 1)
        && inst == if c <= page.startAfter then Skip else if c > page.endAfter then Stop else Handle
    {
      inst := inner(e);
      if inst != Handle || page.Unpaged? {
        return;
      }
      c := Wrap32(c + 1);
      if c <= page.startAfter {
        return Skip;
      }
      if c > page.endAfter {
        return Stop;
      }
      return Handle;
    }
  }

  function Prepend(handled: seq<Entry>, rest: Listing): Listing {
    match rest
    case Walked(entries) => Walked(handled + entries)
    case WalkFailed => WalkFailed
  }

  lemma PrependCons(handled: seq<Entry>, e: Entry, rest: Listing)
    ensures Prepend(handled, Cons(e, rest)) == Prepend(handled + [e], rest)
    ensures Prepend(handled, Walked([])) == Walked(handled)
  {
    if rest.Walked? {
      assert handled + ([e] + rest.entries) == handled + [e] + rest.entries;
    }
  }

  /** One step of the walk in terms of the instruction given. */
  lemma WalkStep(entries: seq<Entry>, inner: Instructor, page: Page, c: int, distance: nat, inst: Instruction, c': int)
    requires IsInt32(c) && IsInt32(c') && entries != [] && distance > 0
    requires inner(entries[0]) != Handle || page.Unpaged? ==> inst == inner(entries[0]) && c' == c
    requires inner(entries[0]) == Handle && page.Paged? ==>
      c' == Wrap32(c + 1) && inst == if c' <= page.startAfter then Skip else if c' > page.endAfter then Stop else Handle
    ensures Walk(entries, inner, page, c, distance) ==
      match inst
      case Error => WalkFailed
      case Stop => Walked([])
      case Skip => Walk(entries[1..], inner, page, c', distance - 1)
      case Handle => Cons(entries[0], Walk(entries[1..], inner, page, c', distance - 1))
  {
  }

  /** The walk over the parsed entries; a distance of zero or less means no limit. */
  method WalkReferences(entries: seq<Entry>, instructor: Paginator, maxWalkDistance: int) returns (listing: Listing)
    requires IsInt32(maxWalkDistance) && instructor.c == 0
    modifies instructor
    ensures listing == Walk(entries, instructor.inner, instructor.page, 0, Distance(maxWalkDistance))
  {
    var distance := if maxWalkDistance <= 0 then MAX_INT32 else maxWalkDistance;
    var handled: seq<Entry> := [];
    var i := 0;
    ghost var goal := Walk(entries, instructor.inner, instructor.page, 0, distance);
    ghost var rest := entries;
    while i < distance
      invariant 0 <= i <= distance && i <= |entries| && IsInt32(instructor.c) && rest == entries[i..]
      invariant goal == Prepend(handled, Walk(rest, instructor.inner, instructor.page, instructor.c, distance - i))
    {
      if i == |entries| {
        break;
      }
      ghost var c := instructor.c;
      var inst := instructor.Instruct(entries[i]);
      WalkStep(rest, instructor.inner, instructor.page, c, distance - i, inst, instructor.c);
      rest := rest[1..];
      PrependCons(handled, entries[i], Walk(rest, instructor.inner, instructor.page, instructor.c, distance - i - 1));
      if inst == Error {
        return WalkFailed;
      }
      if inst == Stop {
        return Walked(handled);
      }
      if inst == Handle {
        handled := handled + [entries[i]];
      }
      i := i + 1;
    }
    PrependCons(handled, map[], WalkFailed);
    return Walked(handled);
  }
}
