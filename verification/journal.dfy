/** The journal page: saving an entry after sentiment and trigger analysis,
    the case-insensitive search over entries, and the sentiment badge. */
module Journal {

  import opened Wrappers
  import opened Seqs
  import opened Text

  /** The sentiment analysis result: a label, a score meant to lie in [-1, 1]
      (not enforced) and the primary emotion. */
  datatype Sentiment = Sentiment(sentiment: string, score: real, emotion: string)

  /** The trigger detection result. */
  datatype Triggers = Triggers(detected: bool, words: seq<string>, summary: string)

  /** A journal entry. `date` is the clock reading at saving time; the page
      renders a separate reading of the same clock as the entry's id, which
      is not modelled. */
  datatype Entry = Entry(date: int, text: string, sentiment: Option<Sentiment>, triggers: Option<Triggers>)

  /** The page state: the text being written and the saved entries, newest first. */
  datatype JournalState = JournalState(draft: string, entries: seq<Entry>)

  /** The notification shown after pressing "Save Entry". */
  datatype SaveNotice = EmptyEntry | EntrySaved | SaveFailed

  datatype SaveOutcome = SaveOutcome(state: JournalState, notice: SaveNotice)

  /** `handleSaveEntry` as one step. `sentiment` and `triggers` are what the two
      analysis calls resolve or reject with; the trigger call is only made once
      the sentiment call has resolved. */
  function SaveEntry(st: JournalState, sentiment: Result<Sentiment>, triggers: Result<Triggers>, now: int): (r: SaveOutcome)
    ensures IsBlank(st.draft) ==> r == SaveOutcome(st, EmptyEntry)
    ensures !IsBlank(st.draft) && (sentiment.Failure? || triggers.Failure?) ==> r == SaveOutcome(st, SaveFailed)
    ensures r.notice == EntrySaved <==> !IsBlank(st.draft) && sentiment.Success? && triggers.Success?
    ensures r.notice == EntrySaved ==>
      && r.state.draft == []
      && |r.state.entries| == |st.entries| + 1
      && r.state.entries[1..] == st.entries
      && r.state.entries[0] == Entry(now, st.draft, Some(sentiment.value), Some(triggers.value))
  {
    if IsBlank(st.draft) then SaveOutcome(st, EmptyEntry)
    else match (sentiment, triggers)
      case (Success(s), Success(t)) =>
        SaveOutcome(JournalState([], [Entry(now, st.draft, Some(s), Some(t))] + st.entries), EntrySaved)
      case _ => SaveOutcome(st, SaveFailed)
  }

  /** A draft consisting only of white space is never saved. */
  lemma WhitespaceDraftNotSaved(st: JournalState, sentiment: Result<Sentiment>, triggers: Result<Triggers>, now: int)
    requires forall i :: 0 <= i < |st.draft| ==> IsWhitespace(st.draft[i])
    ensures SaveEntry(st, sentiment, triggers, now) == SaveOutcome(st, EmptyEntry)
  {
    BlankIff(st.draft);
  }

  /** `lowered.includes(term.toLowerCase())` for one field. */
  predicate FieldMatches(field: string, term: string) {
    Contains(ToLower(field), ToLower(term))
  }

  /** The search predicate: the term is in the text, in a non-empty emotion, or
      in one of the trigger words, ignoring case. */
  predicate Matches(e: Entry, term: string)
    ensures term == [] ==> Matches(e, term)
  {
    ContainsEmpty(ToLower(e.text));
    || FieldMatches(e.text, term)
    || (e.sentiment.Some? && e.sentiment.value.emotion != [] && FieldMatches(e.sentiment.value.emotion, term))
    || (e.triggers.Some? && exists k :: 0 <= k < |e.triggers.value.words| && FieldMatches(e.triggers.value.words[k], term))
  }

  function MatchesTerm(term: string): Entry -> bool {
    (e: Entry) => Matches(e, term)
  }

  /** `filteredEntries`. */
  function FilteredEntries(entries: seq<Entry>, term: string): (r: seq<Entry>)
    ensures |r| <= |entries|
    ensures forall i :: 0 <= i < |r| ==> Matches(r[i], term) && r[i] in entries
  {
    var r := Filter(entries, MatchesTerm(term));
    FilterMembers(entries, MatchesTerm(term));
    assert forall i :: 0 <= i < |r| ==> r[i] in r;
    r
  }

  /** An entry is shown exactly when the lowered term occurs in its lowered
      text, emotion or one of its trigger words, and the shown entries keep
      their order. */
  lemma FilteredEntriesExact(entries: seq<Entry>, term: string)
    ensures forall e :: e in FilteredEntries(entries, term) <==> e in entries && Shown(e, term)
    ensures Subseq(FilteredEntries(entries, term), entries)
    ensures forall e ::
      multiset(FilteredEntries(entries, term))[e] == if Shown(e, term) then multiset(entries)[e] else 0
  {
    FilterCount(entries, MatchesTerm(term));
    FilterIsSubseq(entries, MatchesTerm(term));
    FilterMembers(entries, MatchesTerm(term));
    forall e: Entry
      ensures Matches(e, term) <==> Shown(e, term)
    {
      ContainsIff(ToLower(e.text), ToLower(term));
      if e.sentiment.Some? {
        ContainsIff(ToLower(e.sentiment.value.emotion), ToLower(term));
      }
      if e.triggers.Some? {
        forall k | 0 <= k < |e.triggers.value.words| {
          ContainsIff(ToLower(e.triggers.value.words[k]), ToLower(term));
        }
      }
    }
  }

  /** The search requirement, stated with occurrences rather than the search. */
  ghost predicate Shown(e: Entry, term: string) {
    var t := ToLower(term);
    || Occurs(ToLower(e.text), t)
    || (e.sentiment.Some? && e.sentiment.value.emotion != [] && Occurs(ToLower(e.sentiment.value.emotion), t))
    || (e.triggers.Some? && exists k :: 0 <= k < |e.triggers.value.words| && Occurs(ToLower(e.triggers.value.words[k]), t))
  }

  /** An empty search term shows every entry. */
  lemma EmptySearchShowsAll(entries: seq<Entry>)
    ensures FilteredEntries(entries, []) == entries
  {
    forall e | e in entries
      ensures Matches(e, [])
    {
      ContainsEmpty(ToLower(e.text));
    }
    FilterAll(entries, MatchesTerm([]));
  }

  datatype BadgeVariant = Default | Secondary | Destructive | Outline

  /** `getSentimentBadgeVariant`: positive above 0.3, negative below -0.3,
      neutral in between, both bounds included; the outline variant is never
      chosen. */
  function BadgeFor(score: real): (b: BadgeVariant)
    ensures b == Default <==> score > 0.3
    ensures b == Destructive <==> score < -0.3
    ensures b == Secondary <==> -0.3 <= score <= 0.3
    ensures b != Outline
  {
    if score > 0.3 then Default else if score < -0.3 then Destructive else Secondary
  }
}
