/** The table of records that could not be read (lib/app-directory-failures.ts). */
module AppRecordFailureStore {
  import opened Wrappers

  type Uri = string

  datatype Input = Input(uri: Uri, collection: string, sourceType: string, repoDid: string, rkey: string,
                         reason: string)
  datatype Failure = Failure(input: Input, firstSeenAt: int, lastSeenAt: int, count: nat)

  datatype Event = Recorded(input: Input, at: int) | Cleared(uri: Uri)

  type Failures = map<Uri, Failure>

  function UriOf(e: Event): Uri { if e.Recorded? then e.input.uri else e.uri }

  function After(fs: Failures, e: Event): Failures {
    match e
    case Recorded(input, at) =>
      fs[input.uri := if input.uri in fs then Failure(input, fs[input.uri].firstSeenAt, at, fs[input.uri].count + 1)
      else Failure(input, at, at, 1)]
    case Cleared(uri) => fs - {uri}
  }

  function Play(es: seq<Event>): Failures {
    if es == [] then map[] else After(Play(es[..|es| - 1]), es[|es| - 1])
  }

  /** The failures of one record since it was last cleared. */
  function Streak(es: seq<Event>, uri: Uri): (r: seq<Event>)
    ensures forall e :: e in r ==> e.Recorded? && e.input.uri == uri
  {
    if es == [] then []
    else
      var last := es[|es| - 1];
      if UriOf(last) != uri then Streak(es[..|es| - 1], uri)
      else if last.Cleared? then []
      else Streak(es[..|es| - 1], uri) + [last]
  }

  /** What a row must say after the events: nothing, or a summary of the streak. */
  predicate Summarises(fs: Failures, es: seq<Event>, uri: Uri) {
    var s := Streak(es, uri);
    if s == [] then uri !in fs
    else uri in fs && fs[uri] == Failure(s[|s| - 1].input, s[0].at, s[|s| - 1].at, |s|)
  }

  /** Over every run, a row says how often, since when and why last its record has failed since it was last cleared. */
  lemma {:induction false} RowsSummariseStreaks(es: seq<Event>, uri: Uri)
    ensures Summarises(Play(es), es, uri)
  {
    if es != [] {
      RowsSummariseStreaks(es[..|es| - 1], uri);
    }
  }

  lemma StreakAfter(es: seq<Event>, e: Event, uri: Uri)
    ensures Streak(es + [e], uri) ==
            if UriOf(e) != uri then Streak(es, uri) else if e.Cleared? then [] else Streak(es, uri) + [e]
  {
    assert (es + [e])[..|es|] == es;
  }

  class Store {
    var failures: Failures
    ghost var history: seq<Event>

    ghost predicate Valid()
      reads this
    {
      forall uri :: Summarises(failures, history, uri)
    }

    constructor ()
      ensures Valid() && failures == map[] && history == []
    {
      failures, history := map[], [];
    }

    /** The record has failed once more since it was last cleared, and no other row changes. */
    method RecordAppRecordFailure(input: Input, now: int)
      requires Valid()
      modifies this
      ensures Valid() && history == old(history) + [Recorded(input, now)]
      ensures failures.Keys == old(failures.Keys) + {input.uri}
      ensures var row := failures[input.uri];
              && row.input == input && row.lastSeenAt == now && row.count == |Streak(history, input.uri)|
              && row.firstSeenAt == Streak(history, input.uri)[0].at
              && row.count == 1 + (if input.uri in old(failures) then old(failures)[input.uri].count else 0)
      ensures forall uri :: uri in old(failures) && uri != input.uri ==> failures[uri] == old(failures)[uri]
    {
      if input.uri in failures {
        var row := failures[input.uri];
        failures := failures[input.uri := row.(input := input, lastSeenAt := now, count := row.count + 1)];
      } else {
        failures := failures[input.uri := Failure(input, now, now, 1)];
      }
      history := history + [Recorded(input, now)];
      forall uri ensures Summarises(failures, history, uri) {
        assert Summarises(old(failures), old(history), uri);
        StreakAfter(old(history), Recorded(input, now), uri);
      }
      assert Summarises(failures, history, input.uri);
    }

    /** The record starts afresh, and no other row changes. */
    method ClearAppRecordFailure(uri: Uri)
      requires Valid()
      modifies this
      ensures Valid() && history == old(history) + [Cleared(uri)]
      ensures failures.Keys == old(failures.Keys) - {uri} && Streak(history, uri) == []
      ensures forall other :: other in failures ==> failures[other] == old(failures)[other]
    {
      failures := failures - {uri};
      history := history + [Cleared(uri)];
      StreakAfter(old(history), Cleared(uri), uri);
      forall other ensures Summarises(failures, history, other) {
        assert Summarises(old(failures), old(history), other);
        StreakAfter(old(history), Cleared(uri), other);
      }
    }
  }
}
