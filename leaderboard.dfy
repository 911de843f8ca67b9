/** The local leaderboard (script.js `saveToLeaderboard` and `renderLeaderboard`): a
    newest-first list of entries kept under one storage key, capped at 50 entries,
    of which the first 10 are shown. JSON encoding is abstracted to the kinds of stored
    text the two paths treat differently. */
module Leaderboard {
  import opened Wrappers

  /** One finished quiz: player name, final score and an ISO-8601 timestamp. */
  datatype Entry = Entry(name: string, score: int, date: string)

  /** What the storage key holds, by how the save and render paths react to it. */
  datatype Stored =
    /** no key, or the empty string: `|| "[]"` reads it as an empty list */
    | Missing
    /** text that `JSON.parse` rejects */
    | Unparsable
    /** JSON for a non-array whose `length` is falsy: a number, a boolean, `""`, an
        object without a `length` */
    | Lengthless
    /** JSON for `null`, a non-empty string, or an object with a truthy `length`:
        listing it throws (`null.length`, or a missing `slice`/`forEach`) */
    | Unlistable
    /** a JSON array of entries */
    | Saved(entries: seq<Entry>)

  /** The stored values the save path can `unshift` onto. */
  predicate IsList(st: Stored) {
    st.Missing? || st.Saved?
  }

  const Capacity: nat := 50
  const Shown: nat := 10

  function Min(a: nat, b: nat): nat {
    if a <= b then a else b
  }

  /** `lb.unshift(e)` followed by `lb.slice(0, 50)`. */
  function Prepended(lb: seq<Entry>, e: Entry): (r: seq<Entry>)
    ensures |r| == Min(Capacity, |lb| + 1)
    ensures r[0] == e
    ensures r[1..] == lb[..|r| - 1]
  {
    ([e] + lb)[..Min(Capacity, |lb| + 1)]
  }

  /** The list the save path reads: a missing key reads as "[]". Unparsable text
      throws in `JSON.parse`, and any other non-array throws in `unshift`; the save
      path catches both. */
  function ReadForSave(st: Stored): (lb: Option<seq<Entry>>)
    ensures lb.Some? <==> IsList(st)
    ensures st.Missing? ==> lb == Some([])
    ensures st.Saved? ==> lb == Some(st.entries)
  {
    match st
    case Missing => Some([])
    case Saved(entries) => Some(entries)
    case _ => None
  }

  /** The list the render path lists, or `None` when listing throws. Its `try` covers
      only `JSON.parse`, so unparsable text lists as empty, a value with a falsy
      `length` shows the empty-leaderboard text, and an `Unlistable` value throws out
      of the render path. */
  function ReadForRender(st: Stored): (lb: Option<seq<Entry>>)
    ensures lb.None? <==> st.Unlistable?
    ensures st.Saved? ==> lb == Some(st.entries)
    ensures !st.Saved? && !st.Unlistable? ==> lb == Some([])
  {
    match st
    case Saved(entries) => Some(entries)
    case Unlistable => None
    case _ => Some([])
  }

  /** The storage after saving `e`: unchanged when the stored value is not a list,
      otherwise the list with `e` prepended and cut to 50. */
  function AfterSave(st: Stored, e: Entry): (st': Stored)
    ensures !IsList(st) ==> st' == st
    ensures IsList(st) ==> st'.Saved? && |st'.entries| == Min(Capacity, |ReadForSave(st).value| + 1)
    ensures IsList(st) ==> st'.entries[0] == e
    ensures IsList(st) ==> st'.entries[1..] == ReadForSave(st).value[..|st'.entries| - 1]
  {
    match ReadForSave(st)
    case None => st
    case Some(lb) => Saved(Prepended(lb, e))
  }

  /** The rows shown: the first 10 entries in stored order, or `None` when listing
      throws. */
  function Top(st: Stored): (rows: Option<seq<Entry>>)
    ensures rows.None? <==> st.Unlistable?
    ensures rows.Some? ==> |rows.value| == Min(Shown, |ReadForRender(st).value|)
    ensures rows.Some? ==> rows.value == ReadForRender(st).value[..|rows.value|]
  {
    match ReadForRender(st)
    case None => None
    case Some(lb) => Some(lb[..Min(Shown, |lb|)])
  }

  /** A successful save puts the new entry at the head of the rows shown. */
  lemma SavedEntryShownFirst(st: Stored, e: Entry)
    requires IsList(st)
    ensures Top(AfterSave(st, e)).Some?
    ensures |Top(AfterSave(st, e)).value| >= 1 && Top(AfterSave(st, e)).value[0] == e
  {
  }

  /** An unlistable stored value survives every save, so every later listing throws. */
  lemma UnlistableStays(st: Stored, e: Entry)
    requires st.Unlistable?
    ensures AfterSave(st, e) == st && Top(AfterSave(st, e)).None?
  {
  }

  function Reverse(es: seq<Entry>): (r: seq<Entry>)
    ensures |r| == |es|
  {
    if es == [] then [] else Reverse(es[1..]) + [es[0]]
  }

  /** The list after saving `es[0]`, then `es[1]`, and so on. */
  function SaveAll(lb: seq<Entry>, es: seq<Entry>): seq<Entry>
    decreases |es|
  {
    if es == [] then lb else SaveAll(Prepended(lb, es[0]), es[1..])
  }

  lemma TruncateTail(r: seq<Entry>, y: seq<Entry>)
    ensures (r + y[..Min(Capacity, |y|)])[..Min(Capacity, |r| + Min(Capacity, |y|))]
         == (r + y)[..Min(Capacity, |r| + |y|)]
  {
  }

  /** After any run of saves onto a list within the cap, the list is newest-first:
      the saved entries in reverse order of saving, then the older list, cut to 50. */
  lemma {:induction false} SaveAllNewestFirst(lb: seq<Entry>, es: seq<Entry>)
    requires |lb| <= Capacity
    ensures SaveAll(lb, es) == (Reverse(es) + lb)[..Min(Capacity, |es| + |lb|)]
    decreases |es|
  {
    if es == [] {
      assert lb[..|lb|] == lb;
    } else {
      var p := Prepended(lb, es[0]);
      SaveAllNewestFirst(p, es[1..]);
      var r := Reverse(es[1..]);
      assert p == ([es[0]] + lb)[..Min(Capacity, |[es[0]] + lb|)];
      TruncateTail(r, [es[0]] + lb);
      assert Reverse(es) + lb == r + ([es[0]] + lb);
    }
  }

  /** The storage key, as a mutable cell. */
  class Store {
    var stored: Stored

    constructor (initial: Stored)
      ensures stored == initial
    {
      stored := initial;
    }

    /** `saveToLeaderboard(name, score)` with the timestamp given by the caller. */
    method Save(name: string, score: int, date: string)
      modifies this
      ensures stored == AfterSave(old(stored), Entry(name, score, date))
    {
      match stored
      case Missing =>
        stored := Saved(Prepended([], Entry(name, score, date)));
      case Saved(lb) =>
        stored := Saved(Prepended(lb, Entry(name, score, date)));
      case _ =>
    }

    /** The rows `renderLeaderboard` lists, or `None` when it throws. */
    method Render() returns (rows: Option<seq<Entry>>)
      ensures rows.None? <==> stored.Unlistable?
      ensures rows.Some? ==> |rows.value| <= Shown
      ensures rows == Top(stored)
    {
      match stored
      case Unlistable =>
        rows := None;
      case Saved(lb) =>
        rows := Some(lb[..Min(Shown, |lb|)]);
      case _ =>
        rows := Some([]);
    }
  }
}
