/** The flashcard session of the `App` component: the deck, the cursor, the
    flip flag, the cached enrichment and its in-flight flag, and the events
    that change them. Each method is one event together with the effect the
    component runs after it (clearing the enrichment when the cursor moved). */
module Flashcards {
  import opened Js
  import opened Deck
  import opened Navigation
  import opened Gemini

  /** What pressing the enrichment button did. */
  datatype Start =
    | Ignored             // a request was already in flight
    | Crashed             // no card at the cursor: reading its word threw
    | Requested(entry: WordEntry, run: Run)  // a request about this card was sent; it settles as `run`

  /** The cursor invariant every event keeps: on a non-empty deck the cursor
      names a card; on an empty deck it is 0 (just uploaded) or NaN (moved). */
  predicate CursorOk(words: seq<WordEntry>, index: Num)
  {
    (|words| > 0 ==> OnCard(words, index)) &&
    (|words| == 0 ==> index == Finite(0) || index == NaN)
  }

  /** The effect on the cursor: when its value changed (NaN counts as equal
      to itself) the cached enrichment is dropped, since it was about the
      previous card. */
  function AfterCursorEffect(before: Num, after: Num, analysis: Option<Analysis>): Option<Analysis>
  {
    if after != before then None else analysis
  }

  /** What the effect does for each kind of cursor change: a "next" or
      "previous" press drops a cached enrichment exactly when the deck has
      more than one card, and a reset of the cursor to 0 (after an upload or
      a failed load) drops it exactly when the cursor was not already 0. */
  lemma EnrichmentDroppedOnMove(before: Num, i: nat, len: nat, x: Analysis)
    requires i < len
    ensures AfterCursorEffect(Finite(i), NextIndex(Finite(i), len), Some(x)) == None <==> len > 1
    ensures AfterCursorEffect(Finite(i), PrevIndex(Finite(i), len), Some(x)) == None <==> len > 1
    ensures AfterCursorEffect(before, Finite(0), Some(x)) == None <==> before != Finite(0)
  {
    MovesIffSeveralCards(i, len);
  }

  /** In a state that keeps the cursor invariant, the card on display is the
      card at the cursor whenever the deck has one, and the placeholder
      exactly when the deck is empty. */
  lemma CurrentWordShown(words: seq<WordEntry>, index: Num)
    requires CursorOk(words, index)
    ensures |words| > 0 ==> CurrentWord(words, index) == words[index.v] && CurrentWord(words, index) in words
    ensures |words| == 0 <==> CurrentWord(words, index) == NoData() && NoData() !in words
  {
  }

  class Session {
    var lang: Lang
    var words: seq<WordEntry>
    var index: Num
    var flipped: bool
    var analysis: Option<Analysis>
    var analyzing: bool
    var apiKey: string
    /** The enrichment request whose promise has not settled yet, with the
        way it will settle. */
    var pending: Option<Run>

    ghost predicate Valid()
      reads this
    {
      CursorOk(words, index) && (pending.Some? ==> analyzing)
    }

    /** The state at first render: Korean, the two starter cards, the first
        card face up, no enrichment and no API key. The deck-load effect runs
        once on mount for Korean, so the event that follows construction is
        `DeckLoaded(Ko, ...)` as its fetch settles. */
    constructor ()
      ensures Valid()
      ensures lang == Ko && words == StarterDeck() && index == Finite(0)
      ensures !flipped && analysis == None && !analyzing && apiKey == "" && pending == None
    {
      lang := Ko;
      words := StarterDeck();
      index := Finite(0);
      flipped := false;
      analysis := None;
      analyzing := false;
      apiKey := "";
      pending := None;
    }

    /** A language button: records the language; the deck-load effect runs
        again exactly when it changed. */
    method SelectLanguage(l: Lang) returns (reload: bool)
      modifies this`lang
      ensures lang == l
      ensures reload <==> l != old(lang)
    {
      reload := l != lang;
      lang := l;
    }

    /** The API key typed into the settings panel. */
    method SetApiKey(key: string)
      modifies this`apiKey
      ensures apiKey == key
    {
      apiKey := key;
    }

    /** The deck-load effect settling, for the language `l` it was started
        for. A non-empty array replaces the deck and resets the cursor, the
        flip and the enrichment; any other document changes nothing; a failed
        fetch puts the one "file not found" card in place and resets the
        cursor, but leaves the flip as it was. */
    method DeckLoaded(l: Lang, f: Fetched)
      requires Valid()
      modifies this`words, this`index, this`flipped, this`analysis
      ensures Valid()
      ensures f.Fetched? && f.data.JArray? && |f.data.items| > 0 ==>
        words == f.data.items && index == Finite(0) && !flipped && analysis == None
      ensures f.Fetched? && !(f.data.JArray? && |f.data.items| > 0) ==>
        words == old(words) && index == old(index) && flipped == old(flipped) && analysis == old(analysis)
      ensures f.FetchFailed? ==>
        words == [LoadFailedEntry(l)] && index == Finite(0) && flipped == old(flipped)
      ensures f.FetchFailed? && index != old(index) ==> analysis == None
      ensures f.FetchFailed? && index == old(index) ==> analysis == old(analysis)
    {
      match f
      case Fetched(data) =>
        if data.JArray? && |data.items| > 0 {
          words := data.items;
          index := Finite(0);
          flipped := false;
          analysis := None;
        }
      case FetchFailed =>
        var before := index;
        words := [LoadFailedEntry(l)];
        index := Finite(0);
        analysis := AfterCursorEffect(before, index, analysis);
    }

    /** A file upload. Any parsed array, even an empty one, replaces the deck
        and resets the cursor and the flip; no file, unparsable text or a
        document that is not an array changes nothing. */
    method Upload(u: Upload)
      requires Valid()
      modifies this`words, this`index, this`flipped, this`analysis
      ensures Valid()
      ensures u.Parsed? && u.data.JArray? ==>
        words == u.data.items && index == Finite(0) && !flipped
      ensures index != old(index) ==> analysis == None
      ensures index == old(index) ==> analysis == old(analysis)
      ensures !(u.Parsed? && u.data.JArray?) ==>
        words == old(words) && index == old(index) && flipped == old(flipped) && analysis == old(analysis)
    {
      if u.Parsed? && u.data.JArray? {
        var before := index;
        words := u.data.items;
        index := Finite(0);
        flipped := false;
        analysis := AfterCursorEffect(before, index, analysis);
      }
    }

    /** The "next" button: one card forward with wrap-around, face up. */
    method Next()
      requires Valid()
      modifies this`index, this`flipped, this`analysis
      ensures Valid()
      ensures index == NextIndex(old(index), |words|) && !flipped
      ensures |words| > 0 ==> index.v == (old(index).v + 1) % |words|
      ensures |words| == 0 ==> index == NaN
      ensures index != old(index) ==> analysis == None
      ensures index == old(index) ==> analysis == old(analysis)
    {
      var before := index;
      flipped := false;
      index := NextIndex(index, |words|);
      analysis := AfterCursorEffect(before, index, analysis);
      if |words| > 0 {
        if before.v + 1 < |words| {
          DivModUnique(before.v + 1, |words|, 0, before.v + 1);
        } else {
          DivModUnique(before.v + 1, |words|, 1, 0);
        }
      }
    }

    /** The "previous" button: one card back with wrap-around, face up. */
    method Prev()
      requires Valid()
      modifies this`index, this`flipped, this`analysis
      ensures Valid()
      ensures index == PrevIndex(old(index), |words|) && !flipped
      ensures |words| > 0 ==> index.v == (old(index).v - 1 + |words|) % |words|
      ensures |words| == 0 ==> index == NaN
      ensures index != old(index) ==> analysis == None
      ensures index == old(index) ==> analysis == old(analysis)
    {
      var before := index;
      flipped := false;
      index := PrevIndex(index, |words|);
      analysis := AfterCursorEffect(before, index, analysis);
      if |words| > 0 {
        if before.v == 0 {
          DivModUnique(|words| - 1, |words|, 0, |words| - 1);
        } else {
          DivModUnique(before.v - 1 + |words|, |words|, 1, before.v - 1);
        }
      }
    }

    /** A click on the card turns it over and changes nothing else. */
    method Flip()
      modifies this`flipped
      ensures flipped == !old(flipped)
      ensures words == old(words) && index == old(index) && analysis == old(analysis)
    {
      flipped := !flipped;
    }

    /** The enrichment button. Ignored while a request is in flight;
        otherwise the request is marked in flight and the cached enrichment
        dropped, and `callGemini` is called with the current API key about
        the card at the cursor; `reply(k)` is what its attempt `k` meets.
        With no card there, reading its word throws before the request is
        made, and the in-flight flag is never cleared. */
    method StartAnalysis(reply: nat -> Attempt) returns (s: Start)
      requires Valid()
      modifies this`analyzing, this`analysis, this`pending
      ensures Valid() && analyzing
      ensures old(analyzing) ==> s == Ignored && analysis == old(analysis) && pending == old(pending)
      ensures !old(analyzing) ==> analysis == None
      ensures !old(analyzing) && OnCard(words, index) ==>
        s == Requested(words[index.v], CallGemini(apiKey, reply)) && pending == Some(CallGemini(apiKey, reply))
      ensures !old(analyzing) && !OnCard(words, index) ==> s == Crashed && pending == None
    {
      if analyzing {
        return Ignored;
      }
      analyzing := true;
      analysis := None;
      if OnCard(words, index) {
        var run := CallGemini(apiKey, reply);
        pending := Some(run);
        s := Requested(words[index.v], run);
      } else {
        s := Crashed;
      }
    }

    /** The pending request settling: a truthy reply becomes the cached
        enrichment, a falsy one (as with no API key) or a rejection leaves it
        as it is; either way the request is no longer in flight. */
    method FinishAnalysis()
      requires Valid() && pending.Some?
      modifies this`analyzing, this`analysis, this`pending
      ensures Valid() && !analyzing && pending == None
      ensures old(pending.value.outcome).Resolved? && old(pending.value.outcome).data.Value? ==>
        analysis == Some(old(pending.value.outcome).data.analysis)
      ensures !(old(pending.value.outcome).Resolved? && old(pending.value.outcome).data.Value?) ==>
        analysis == old(analysis)
    {
      var o := pending.value.outcome;
      if o.Resolved? && o.data.Value? {
        analysis := Some(o.data.analysis);
      }
      analyzing := false;
      pending := None;
    }
  }

  /** Pressing the enrichment button with no API key set and letting the
      request settle leaves the panel without an enrichment, whatever the
      network would have answered, and no attempt is made. */
  method EmptyKeyLeavesNoAnalysis(session: Session, reply: nat -> Attempt)
    requires session.Valid() && !session.analyzing && session.apiKey == ""
    modifies session
    ensures session.Valid() && session.analysis == None
  {
    var s := session.StartAnalysis(reply);
    if s.Requested? {
      assert s.run.attempts == 0;
      session.FinishAnalysis();
    }
  }
}
