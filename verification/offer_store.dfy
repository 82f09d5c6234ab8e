/**
 * The home page's offer bookkeeping: the browser-side store of saved offers
 * keyed by name, the comparison selection kept in step with it, the search
 * filter over the offer cards, and the preparation of one comparison run
 * (cleaning the rate-change rows and merging project parameters into an
 * offer's parameters).
 */
module OfferStore {
  import opened Wrappers
  import opened Sequences

  /** A callback output that is either left as it is or replaced. */
  datatype Update<T> = NoUpdate | Set(value: T)

  /**
   * Saving an offer under its name. An absent store becomes a store holding
   * just that offer; otherwise the offer is added, replacing any offer of the
   * same name.
   */
  function Save<V>(store: Option<map<string, V>>, name: string, loan: V): (saved: map<string, V>)
    ensures name in saved && saved[name] == loan
    ensures forall k :: k != name ==> (k in saved <==> store.Some? && k in store.value)
    ensures forall k :: k != name && k in saved ==> saved[k] == store.value[k]
  {
    if store.None? then map[name := loan] else store.value[name := loan]
  }

  /**
   * Deleting the offer of a name. The source filters the entries of the
   * stored object, which throws on an absent store; the callback then
   * updates nothing.
   */
  function Delete<V>(store: Option<map<string, V>>, name: string): (u: Update<map<string, V>>)
    ensures u.NoUpdate? <==> store.None?
    ensures u.Set? ==> name !in u.value
    ensures u.Set? ==> forall k :: k != name ==> (k in u.value <==> k in store.value)
    ensures u.Set? ==> forall k :: k in u.value ==> u.value[k] == store.value[k]
  {
    if store.None? then NoUpdate else Set(store.value - {name})
  }

  /** What triggered the store callback. */
  datatype StoreEvent<V> = NotTriggered | DeleteClicked(name: string) | SaveClicked(name: string, loan: V)

  /** The store callback: no trigger leaves the store alone, a delete button deletes, a save button saves. */
  function OnStoreEvent<V>(store: Option<map<string, V>>, event: StoreEvent<V>): (u: Update<map<string, V>>)
    ensures event.NotTriggered? ==> u.NoUpdate?
    ensures event.SaveClicked? ==> u == Set(Save(store, event.name, event.loan))
    ensures event.DeleteClicked? ==> u == Delete(store, event.name)
  {
    match event
    case NotTriggered => NoUpdate
    case DeleteClicked(name) => Delete(store, name)
    case SaveClicked(name, loan) => Set(Save(store, name, loan))
  }

  /** Saving into an empty store gives a store of exactly one offer. */
  lemma SaveIntoEmpty<V>(name: string, loan: V)
    ensures Save(None, name, loan) == map[name := loan]
    ensures Save(Some(map[]), name, loan) == map[name := loan]
  {
  }

  /** A second save under the same name replaces the first. */
  lemma SaveOverwrites<V>(store: Option<map<string, V>>, name: string, first: V, second: V)
    ensures Save(Some(Save(store, name, first)), name, second) == Save(store, name, second)
  {
  }

  /** Deleting a just-saved offer gives back the store without that name. */
  lemma DeleteUndoesSave<V>(store: map<string, V>, name: string, loan: V)
    ensures Delete(Some(Save(Some(store), name, loan)), name) == Delete(Some(store), name)
    ensures name !in store ==> Delete(Some(Save(Some(store), name, loan)), name) == Set(store)
  {
    assert store[name := loan] - {name} == store - {name};
    if name !in store {
      assert store - {name} == store;
    }
  }

  /** Deleting a name that is not stored leaves the store as it was. */
  lemma DeleteAbsent<V>(store: map<string, V>, name: string)
    requires name !in store
    ensures Delete(Some(store), name) == Set(store)
  {
    assert store - {name} == store;
  }

  /**
   * The selection callback: the selectable names are the non-empty stored
   * names, and the current selection (when there is one) keeps those of its
   * names still stored. An absent store empties both.
   */
  function Selection<V>(store: Option<map<string, V>>, current: Option<seq<string>>)
    : (r: (set<string>, Update<seq<string>>))
    ensures store.None? ==> r == ({}, Set([]))
    ensures store.Some? ==> forall k :: k in r.0 <==> k in store.value && k != ""
    ensures store.Some? ==> (r.1.NoUpdate? <==> current.None?)
    ensures store.Some? && current.Some? ==> r.1.value == Filter(current.value, n => n in r.0)
  {
    if store.None? then ({}, Set([]))
    else
      var names := set k | k in store.value && k != "";
      (names, if current.None? then NoUpdate else Set(Filter(current.value, n => n in names)))
  }

  /**
   * A refreshed selection names only stored offers, keeps every still-stored
   * name it had, and keeps their order: a selection split in two is the two
   * halves refreshed.
   */
  lemma SelectionKeepsStoredInOrder<V>(store: map<string, V>, first: seq<string>, second: seq<string>)
    ensures var r := Selection(Some(store), Some(first + second));
      && r.1.Set?
      && (forall n :: n in r.1.value <==> n in first + second && n in store && n != "")
      && r.1.value == Selection(Some(store), Some(first)).1.value + Selection(Some(store), Some(second)).1.value
  {
    var names := set k | k in store && k != "";
    FilterAppend(first, second, n => n in names);
  }

  /** ASCII lower-casing of one character. */
  function Lower(c: char): (l: char)
    ensures 'A' <= c <= 'Z' ==> 'a' <= l <= 'z'
    ensures !('A' <= c <= 'Z') ==> l == c
  {
    if 'A' <= c <= 'Z' then (c as int - 'A' as int + 'a' as int) as char else c
  }

  function LowerString(s: string): (l: string)
    ensures |l| == |s|
    ensures forall i :: 0 <= i < |s| ==> l[i] == Lower(s[i])
  {
    if |s| == 0 then "" else [Lower(s[0])] + LowerString(s[1..])
  }

  /** Lower-casing twice is lower-casing once. */
  lemma LowerStringIdempotent(s: string)
    ensures LowerString(LowerString(s)) == LowerString(s)
  {
  }

  /** pattern occurs in text starting at position i. */
  predicate OccursAt(text: string, pattern: string, i: int)
  {
    0 <= i && i + |pattern| <= |text| && text[i..i + |pattern|] == pattern
  }

  /** Python's `pattern in text` on strings, scanning the text from the left. */
  predicate Contains(text: string, pattern: string)
    decreases |text|
  {
    pattern <= text || (|text| > 0 && Contains(text[1..], pattern))
  }

  /** Where Contains holds, the pattern occurs at some position. */
  lemma {:induction false} ContainsHasPosition(text: string, pattern: string) returns (i: int)
    requires Contains(text, pattern)
    ensures OccursAt(text, pattern, i)
    decreases |text|
  {
    if pattern <= text {
      i := 0;
      assert text[0..|pattern|] == pattern;
    } else {
      var j := ContainsHasPosition(text[1..], pattern);
      i := j + 1;
      assert text[i..i + |pattern|] == text[1..][j..j + |pattern|];
    }
  }

  /** Where the pattern occurs at position i, Contains holds. */
  lemma {:induction false} PositionGivesContains(text: string, pattern: string, i: int)
    requires OccursAt(text, pattern, i)
    ensures Contains(text, pattern)
    decreases i
  {
    if i == 0 {
      assert pattern == text[..|pattern|];
    } else {
      assert text[1..][i - 1..i - 1 + |pattern|] == text[i..i + |pattern|];
      PositionGivesContains(text[1..], pattern, i - 1);
    }
  }

  /** Contains holds exactly when the pattern occurs somewhere in the text. */
  lemma ContainsIffOccurs(text: string, pattern: string)
    ensures Contains(text, pattern) <==> exists i :: OccursAt(text, pattern, i)
  {
    if Contains(text, pattern) {
      var i := ContainsHasPosition(text, pattern);
    }
    if exists i :: OccursAt(text, pattern, i) {
      var i :| OccursAt(text, pattern, i);
      PositionGivesContains(text, pattern, i);
    }
  }

  /** An offer card is shown when there is no search text or its name contains the text, ignoring case. */
  predicate Matches(search: Option<string>, name: string)
  {
    search.None? || search.value == "" || Contains(LowerString(name), LowerString(search.value))
  }

  /** The offer cards shown, in the order of the stored offers. */
  function VisibleOffers(names: seq<string>, search: Option<string>): (shown: seq<string>)
    ensures forall n :: n in shown <==> n in names && Matches(search, n)
  {
    Filter(names, n => Matches(search, n))
  }

  /** An empty search shows every offer. */
  lemma EmptySearchShowsAll(names: seq<string>, search: Option<string>)
    requires search.None? || search == Some("")
    ensures VisibleOffers(names, search) == names
  {
    FilterKeepsAll(names, n => Matches(search, n));
  }

  /** The search ignores the case of the search text. */
  lemma SearchIgnoresCase(names: seq<string>, search: string)
    ensures VisibleOffers(names, Some(search)) == VisibleOffers(names, Some(LowerString(search)))
  {
    LowerStringIdempotent(search);
    assert search == "" <==> LowerString(search) == "";
    FilterCongruent(names, n => Matches(Some(search), n), n => Matches(Some(LowerString(search)), n));
  }

  /** The search keeps the order of the offers: searching two runs of offers is searching each. */
  lemma SearchKeepsOrder(first: seq<string>, second: seq<string>, search: Option<string>)
    ensures VisibleOffers(first + second, search) == VisibleOffers(first, search) + VisibleOffers(second, search)
  {
    FilterAppend(first, second, n => Matches(search, n));
  }

  /** One row of the rate-change table as the browser sends it; either cell may be empty. */
  datatype RateChangeEntry = RateChangeEntry(date: Option<string>, change: Option<real>)

  /** A row is passed on when it has a non-empty date and a change, a change of 0 included. */
  predicate Usable(e: RateChangeEntry)
  {
    e.date.Some? && e.date.value != "" && e.change.Some?
  }

  /** The rate changes passed to the engine; an absent table is an empty one. */
  function CleanRateChanges(entries: Option<seq<RateChangeEntry>>): (cleaned: seq<RateChangeEntry>)
    ensures entries.None? ==> cleaned == []
    ensures forall e :: e in cleaned <==> entries.Some? && e in entries.value && Usable(e)
  {
    Filter(if entries.None? then [] else entries.value, Usable)
  }

  /** Cleaning keeps the table's order and keeps a table of usable rows whole. */
  lemma CleanRateChangesKeepsOrder(first: seq<RateChangeEntry>, second: seq<RateChangeEntry>)
    ensures CleanRateChanges(Some(first + second)) == CleanRateChanges(Some(first)) + CleanRateChanges(Some(second))
    ensures (forall e :: e in first ==> Usable(e)) ==> CleanRateChanges(Some(first)) == first
  {
    FilterAppend(first, second, Usable);
    if forall e :: e in first ==> Usable(e) {
      FilterKeepsAll(first, Usable);
    }
  }

  /**
   * The parameters of one comparison run: the offer's parameters with the
   * project's laid over them, so a project parameter wins over an offer
   * field of the same name.
   */
  function Merge<V>(offer: map<string, V>, project: map<string, V>): (loan: map<string, V>)
    ensures loan.Keys == offer.Keys + project.Keys
    ensures forall k :: k in project ==> loan[k] == project[k]
    ensures forall k :: k in offer && k !in project ==> loan[k] == offer[k]
  {
    offer + project
  }
}
