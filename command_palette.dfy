/**
 * The command palette: a substring filter over the command catalogue, an
 * `active` cursor driven by the arrow keys, Enter and Escape, the reset of
 * the cursor whenever the filtered list is recomputed, the hover update and
 * the render guard.
 */
module CommandPalette {
  import opened Types
  import opened Text

  /** A palette entry; `title` is a slash command such as "/projects". */
  datatype CommandItem = CommandItem(id: string, title: string, description: Option<string>, intent: string)

  /** The keys the keydown handler distinguishes; every other key is `OtherKey`. */
  datatype Key = Escape | ArrowDown | ArrowUp | Enter | OtherKey

  /** What a key press or a click asks of the palette's owner. */
  datatype Effect = NoEffect | Select(item: CommandItem) | Close

  /** One rendered option: its item, whether it is highlighted, whether its description is shown. */
  datatype Row = Row(item: CommandItem, selected: bool, showsDescription: bool)

  // ---------------------------------------------------------------------
  // Filtering

  /** The query as the filter compares it: at most one leading slash removed, then lower-cased. */
  function NormalizeQuery(query: string): string
  {
    Lower(StripLeadingSlash(query))
  }

  /** `it.description || ""`. */
  function DescriptionText(it: CommandItem): string
  {
    match it.description
    case Some(d) => d
    case None => ""
  }

  /** The per-item test: the normalised query occurs in the slash-stripped title, the description or the intent, all lower-cased. */
  predicate ItemMatches(it: CommandItem, q: string)
  {
    || Contains(Lower(StripLeadingSlash(it.title)), q)
    || Contains(Lower(DescriptionText(it)), q)
    || Contains(Lower(it.intent), q)
  }

  /** `items.filter(...)` for an already normalised query. */
  function FilterMatching(items: seq<CommandItem>, q: string): seq<CommandItem>
  {
    if items == [] then []
    else (if ItemMatches(items[0], q) then [items[0]] else []) + FilterMatching(items[1..], q)
  }

  /** The memoised `filtered` list: the items themselves for an empty normalised query, else the matching ones. */
  function FilterItems(items: seq<CommandItem>, query: string): seq<CommandItem>
  {
    var q := NormalizeQuery(query);
    if q == "" then items else FilterMatching(items, q)
  }

  /** `a` can be obtained from `b` by deleting elements, keeping the order of the rest. */
  ghost predicate Subsequence<T>(a: seq<T>, b: seq<T>)
    decreases |b|
  {
    if a == [] then true
    else if b == [] then false
    else if a[0] == b[0] then Subsequence(a[1..], b[1..])
    else Subsequence(a, b[1..])
  }

  /** Every item occurs in the filtered list exactly as often as in the input when it matches, and not at all otherwise. */
  lemma {:induction false} FilterMatchingCount(items: seq<CommandItem>, q: string, x: CommandItem)
    ensures multiset(FilterMatching(items, q))[x] == if ItemMatches(x, q) then multiset(items)[x] else 0
  {
    if items != [] {
      FilterMatchingCount(items[1..], q, x);
      assert items == [items[0]] + items[1..];
    }
  }

  /** The filtered list keeps the input's order. */
  lemma {:induction false} FilterMatchingSubsequence(items: seq<CommandItem>, q: string)
    ensures Subsequence(FilterMatching(items, q), items)
  {
    if items != [] {
      FilterMatchingSubsequence(items[1..], q);
      var rest := FilterMatching(items[1..], q);
      if ItemMatches(items[0], q) {
        assert FilterMatching(items, q) == [items[0]] + rest;
        assert ([items[0]] + rest)[1..] == rest;
      } else {
        assert FilterMatching(items, q) == rest;
        SubsequenceDropHead(rest, items);
      }
    }
  }

  /** A subsequence of the tail is a subsequence of the whole. */
  lemma {:induction false} SubsequenceDropHead<T>(a: seq<T>, b: seq<T>)
    requires b != [] && Subsequence(a, b[1..])
    ensures Subsequence(a, b)
    decreases |b|, 0
  {
    if a != [] && a[0] == b[0] {
      SubsequenceWeaken(a, b[1..]);
    }
  }

  /** Dropping the head of a non-empty subsequence keeps it a subsequence. */
  lemma {:induction false} SubsequenceWeaken<T>(a: seq<T>, b: seq<T>)
    requires a != [] && Subsequence(a, b)
    ensures Subsequence(a[1..], b)
    decreases |b|, 1
  {
    if a[0] != b[0] {
      SubsequenceWeaken(a, b[1..]);
    }
    SubsequenceDropHead(a[1..], b);
  }

  /** Filtering an already filtered list with the same query changes nothing. */
  lemma {:induction false} FilterMatchingIdempotent(items: seq<CommandItem>, q: string)
    ensures FilterMatching(FilterMatching(items, q), q) == FilterMatching(items, q)
  {
    if items != [] {
      FilterMatchingIdempotent(items[1..], q);
      var rest := FilterMatching(items[1..], q);
      if ItemMatches(items[0], q) {
        assert FilterMatching(items, q) == [items[0]] + rest;
        assert ([items[0]] + rest)[0] == items[0];
        assert ([items[0]] + rest)[1..] == rest;
      } else {
        assert FilterMatching(items, q) == rest;
      }
    }
  }

  /** Every string contains the empty string, so the empty query matches every item. */
  lemma {:induction false} FilterMatchingEmptyQuery(items: seq<CommandItem>)
    ensures FilterMatching(items, "") == items
  {
    if items != [] {
      FilterMatchingEmptyQuery(items[1..]);
      assert items == [items[0]] + items[1..];
    }
  }

  /** The empty-query short cut returns what the filter itself would: the palette always shows the matching items. */
  lemma FilterItemsIsFilter(items: seq<CommandItem>, query: string)
    ensures FilterItems(items, query) == FilterMatching(items, NormalizeQuery(query))
  {
    if NormalizeQuery(query) == "" {
      FilterMatchingEmptyQuery(items);
    }
  }

  /** The palette's list is an order-preserving selection of the items, holding exactly the matching ones with their multiplicity. */
  lemma FilterItemsSpec(items: seq<CommandItem>, query: string, x: CommandItem)
    ensures Subsequence(FilterItems(items, query), items)
    ensures multiset(FilterItems(items, query))[x] == if ItemMatches(x, NormalizeQuery(query)) then multiset(items)[x] else 0
    ensures x in FilterItems(items, query) <==> x in items && ItemMatches(x, NormalizeQuery(query))
  {
    FilterItemsIsFilter(items, query);
    FilterMatchingSubsequence(items, NormalizeQuery(query));
    FilterMatchingCount(items, NormalizeQuery(query), x);
  }

  /** Filtering the filtered list with the same query gives the same list. */
  lemma FilterItemsIdempotent(items: seq<CommandItem>, query: string)
    ensures FilterItems(FilterItems(items, query), query) == FilterItems(items, query)
  {
    if NormalizeQuery(query) != "" {
      FilterMatchingIdempotent(items, NormalizeQuery(query));
    }
  }

  // ---------------------------------------------------------------------
  // The cursor

  /** Where the cursor may be for a list of `n` items: on an item, or at -1 or 0 when the list is empty. */
  predicate CursorInRange(active: int, n: nat)
  {
    if n > 0 then 0 <= active < n else -1 <= active <= 0
  }

  /** The cursor after one key: ArrowDown moves down clamped at `n - 1`, ArrowUp moves up clamped at 0, other keys leave it. */
  function CursorStep(active: int, n: nat, key: Key): int
  {
    match key
    case ArrowDown => if active + 1 < n - 1 then active + 1 else n - 1
    case ArrowUp => if active - 1 > 0 then active - 1 else 0
    case _ => active
  }

  /** The cursor after a sequence of keys on an unchanging list. */
  function Navigate(active: int, n: nat, keys: seq<Key>): int
    decreases |keys|
  {
    if keys == [] then active else Navigate(CursorStep(active, n, keys[0]), n, keys[1..])
  }

  /** ArrowDown on an open palette whose list is empty moves the cursor to -1. */
  lemma ArrowDownOnEmptyList(active: int)
    requires CursorInRange(active, 0)
    ensures CursorStep(active, 0, ArrowDown) == -1
    ensures CursorStep(CursorStep(active, 0, ArrowDown), 0, ArrowUp) == 0
  {
  }

  /** One key keeps the cursor in range. */
  lemma CursorStepInRange(active: int, n: nat, key: Key)
    requires CursorInRange(active, n)
    ensures CursorInRange(CursorStep(active, n, key), n)
  {
  }

  /** Any key sequence keeps the cursor on an item of a non-empty list. */
  lemma {:induction false} NavigateStaysInRange(active: int, n: nat, keys: seq<Key>)
    requires 0 <= active < n
    ensures 0 <= Navigate(active, n, keys) < n
    decreases |keys|
  {
    if keys != [] {
      NavigateStaysInRange(CursorStep(active, n, keys[0]), n, keys[1..]);
    }
  }

  /** `k` copies of one key. */
  function Repeat(key: Key, k: nat): (r: seq<Key>)
    ensures |r| == k && forall i :: 0 <= i < k ==> r[i] == key
  {
    if k == 0 then [] else [key] + Repeat(key, k - 1)
  }

  /** No wrap-around: `k` ArrowDowns from an item stop at the last item. */
  lemma {:induction false} RepeatArrowDown(active: int, n: nat, k: nat)
    requires 0 <= active < n
    ensures Navigate(active, n, Repeat(ArrowDown, k)) == if active + k < n - 1 then active + k else n - 1
    decreases k
  {
    if k > 0 {
      assert Repeat(ArrowDown, k)[1..] == Repeat(ArrowDown, k - 1);
      RepeatArrowDown(CursorStep(active, n, ArrowDown), n, k - 1);
    }
  }

  /** No wrap-around: `k` ArrowUps from an item stop at the first item. */
  lemma {:induction false} RepeatArrowUp(active: int, n: nat, k: nat)
    requires 0 <= active < n
    ensures Navigate(active, n, Repeat(ArrowUp, k)) == if active - k > 0 then active - k else 0
    decreases k
  {
    if k > 0 {
      assert Repeat(ArrowUp, k)[1..] == Repeat(ArrowUp, k - 1);
      RepeatArrowUp(CursorStep(active, n, ArrowUp), n, k - 1);
    }
  }

  /** What a key asks of the owner: Escape closes, Enter selects the item under the cursor if there is one. */
  function KeyEffect(shown: seq<CommandItem>, active: int, key: Key): (e: Effect)
    ensures e.Select? <==> key == Enter && 0 <= active < |shown|
    ensures e.Select? ==> e.item == shown[active]
    ensures e == Close <==> key == Escape
  {
    match key
    case Escape => Close
    case Enter => if 0 <= active < |shown| then Select(shown[active]) else NoEffect
    case _ => NoEffect
  }

  /**
   * Whether the listener suppresses the key's default action: always for Escape and
   * the arrows, and for Enter only when there is an item under the cursor.
   */
  function KeyPrevented(shown: seq<CommandItem>, active: int, key: Key): (prevented: bool)
    ensures prevented <==> KeyEffect(shown, active, key) != NoEffect || key == ArrowDown || key == ArrowUp
  {
    match key
    case Escape => true
    case ArrowDown => true
    case ArrowUp => true
    case Enter => 0 <= active < |shown|
    case OtherKey => false
  }

  /**
   * Whether `filtered` is recomputed into a new list: when the caller passes a new
   * items array, or when the query changes and either query normalises to a
   * non-empty string (two empty normalised queries both give back `items` itself).
   */
  predicate Refiltered(oldQuery: string, newQuery: string, itemsReplaced: bool)
  {
    || itemsReplaced
    || (oldQuery != newQuery && (NormalizeQuery(oldQuery) != "" || NormalizeQuery(newQuery) != ""))
  }

  /** Without a recomputation the list is the same, so resetting only on recomputation resets on every change. */
  lemma NoRefilterSameList(items: seq<CommandItem>, oldQuery: string, newQuery: string)
    requires !Refiltered(oldQuery, newQuery, false)
    ensures FilterItems(items, newQuery) == FilterItems(items, oldQuery)
  {
  }

  /** The palette's state: its props, the memoised filtered list and the cursor. */
  class Palette {
    var open: bool
    var query: string
    var items: seq<CommandItem>
    var filtered: seq<CommandItem>
    var active: int

    /** `filtered` is the filter of the current props and the cursor is in range for it. */
    ghost predicate Valid()
      reads this
    {
      filtered == FilterItems(items, query) && CursorInRange(active, |filtered|)
    }

    /** The palette draws anything only when it is open and has something to show. */
    predicate Rendered()
      reads this
    {
      open && |filtered| > 0
    }

    /** The options drawn, one per filtered item in order; empty when nothing is rendered. */
    function Rows(): (rows: seq<Row>)
      reads this
      ensures !Rendered() ==> rows == []
      ensures Rendered() ==> |rows| == |filtered|
      ensures forall i :: 0 <= i < |rows| ==> rows[i].item == filtered[i] && (rows[i].selected <==> i == active)
      ensures forall i :: 0 <= i < |rows| ==> (rows[i].showsDescription <==> DescriptionText(filtered[i]) != "")
    {
      if !Rendered() then []
      else
        seq(|filtered|, i requires 0 <= i < |filtered| reads this =>
          Row(filtered[i], i == active, DescriptionText(filtered[i]) != ""))
    }

    constructor (open: bool, query: string, items: seq<CommandItem>)
      ensures Valid()
      ensures this.open == open && this.query == query && this.items == items && active == 0
    {
      this.open := open;
      this.query := query;
      this.items := items;
      filtered := FilterItems(items, query);
      active := 0;
    }

    /** The keydown listener, registered only while the palette is open. */
    method OnKey(key: Key) returns (effect: Effect, prevented: bool)
      requires Valid()
      modifies this`active
      ensures Valid()
      ensures !open ==> effect == NoEffect && !prevented && active == old(active)
      ensures open ==> effect == KeyEffect(filtered, old(active), key)
      ensures open ==> prevented == KeyPrevented(filtered, old(active), key)
      ensures open ==> active == CursorStep(old(active), |filtered|, key)
    {
      if !open {
        return NoEffect, false;
      }
      effect := KeyEffect(filtered, active, key);
      prevented := KeyPrevented(filtered, active, key);
      CursorStepInRange(active, |filtered|, key);
      active := CursorStep(active, |filtered|, key);
    }

    /** Hovering an option moves the cursor to it. */
    method Hover(idx: nat)
      requires Valid() && Rendered() && idx < |filtered|
      modifies this`active
      ensures Valid() && active == idx
    {
      active := idx;
    }

    /** Clicking an option selects its item and changes no state. */
    method Click(idx: nat) returns (effect: Effect)
      requires Valid() && Rendered() && idx < |filtered|
      ensures effect.Select? && effect.item == filtered[idx] && effect.item in items
    {
      FilterItemsSpec(items, query, filtered[idx]);
      effect := Select(filtered[idx]);
    }

    /**
     * New props from the owner. `itemsReplaced` says whether a new items array was
     * passed; an array that was not replaced has the same contents.
     */
    method Update(newOpen: bool, newQuery: string, newItems: seq<CommandItem>, itemsReplaced: bool)
      requires Valid()
      requires itemsReplaced || newItems == items
      modifies this
      ensures Valid()
      ensures open == newOpen && query == newQuery && items == newItems
      ensures active == if Refiltered(old(query), newQuery, itemsReplaced) then 0 else old(active)
      ensures filtered != old(filtered) ==> active == 0
    {
      var refilter := itemsReplaced || (newQuery != query && (NormalizeQuery(query) != "" || NormalizeQuery(newQuery) != ""));
      if !refilter {
        NoRefilterSameList(items, query, newQuery);
      }
      open := newOpen;
      query := newQuery;
      items := newItems;
      if refilter {
        filtered := FilterItems(newItems, newQuery);
        active := 0;
      }
    }
  }
}
