/** Keyword search over the indexed notes: `src/core/memory_search.cpp`. */
module MemorySearch {
  // Scores are reals and the weight of a term in an entry is any function of the number of entries that hold the
  // term, its frequency in the entry and the entry's length. Search walks the postings of the query's terms; it is
  // proved to rank like a search that scores every entry from its tokens.

  datatype IndexEntry = IndexEntry(filepath: string, lineNumber: int, content: string, tokens: seq<string>)

  datatype Posting = Posting(entry: nat, frequency: nat)

  datatype SearchResult = SearchResult(source: string, content: string, score: real, lineNumber: int)

  type Weight = (nat, nat, nat) -> real

  type Index = map<string, seq<Posting>>

  // ---------------------------------------------------------------- the naive reading

  function Frequency(tokens: seq<string>, term: string): nat {
    if tokens == [] then 0
    else Frequency(tokens[..|tokens| - 1], term) + if tokens[|tokens| - 1] == term then 1 else 0
  }

  /** How many entries hold the term. */
  function EntriesWith(entries: seq<IndexEntry>, term: string): nat {
    if entries == [] then 0
    else
      EntriesWith(entries[..|entries| - 1], term) +
      if Frequency(entries[|entries| - 1].tokens, term) > 0 then 1 else 0
  }

  function TermScore(weight: Weight, entries: seq<IndexEntry>, term: string, i: nat): real
    requires i < |entries|
  {
    var f := Frequency(entries[i].tokens, term);
    if f == 0 then 0.0 else weight(EntriesWith(entries, term), f, |entries[i].tokens|)
  }

  /** The score of one entry, straight from its tokens. */
  function NaiveScore(weight: Weight, entries: seq<IndexEntry>, query: seq<string>, i: nat): real
    requires i < |entries|
  {
    if query == [] then 0.0
    else
      NaiveScore(weight, entries, query[..|query| - 1], i) +
      TermScore(weight, entries, query[|query| - 1], i)
  }

  // ---------------------------------------------------------------- the postings

  /** The entries that hold the term, in ascending order, once each, with the frequency. */
  function PostingsOf(entries: seq<IndexEntry>, term: string): (ps: seq<Posting>)
    ensures |ps| == EntriesWith(entries, term)
  {
    if entries == [] then []
    else
      var n := |entries| - 1;
      var f := Frequency(entries[n].tokens, term);
      PostingsOf(entries[..n], term) + if f > 0 then [Posting(n, f)] else []
  }

  /** What a list of postings of a term must be, for the first `n` entries. */
  ghost predicate ListsExactly(ps: seq<Posting>, entries: seq<IndexEntry>, n: nat, term: string)
    requires n <= |entries|
  {
    && (forall i, j :: 0 <= i < j < |ps| ==> ps[i].entry < ps[j].entry)
    && (forall p :: p in ps ==>
          p.entry < n && p.frequency == Frequency(entries[p.entry].tokens, term) && p.frequency > 0)
    && (forall i :: 0 <= i < n && Frequency(entries[i].tokens, term) > 0 ==>
          Posting(i, Frequency(entries[i].tokens, term)) in ps)
  }

  lemma ListsNext(ps: seq<Posting>, entries: seq<IndexEntry>, n: nat, term: string)
    ensures n < |entries| && ListsExactly(ps, entries, n, term) ==>
              var f := Frequency(entries[n].tokens, term);
              ListsExactly(ps + (if f > 0 then [Posting(n, f)] else []), entries, n + 1, term)
  {
  }

  /** The postings of a term list exactly the entries that hold it, once each, in ascending order and with
      the right frequency; and so they do while the index is built, for the entries taken in. */
  lemma {:induction false} PostingsListExactly(entries: seq<IndexEntry>, n: nat, term: string)
    requires n <= |entries|
    ensures ListsExactly(PostingsOf(entries[..n], term), entries, n, term)
  {
    hide Frequency, ListsExactly, PostingsOf;
    if n == 0 {
      NoPostings(entries, term);
    } else {
      PostingsListExactly(entries, n - 1, term);
      ListsNext(PostingsOf(entries[..n - 1], term), entries, n - 1, term);
      PostingsNext(entries, n - 1, term);
    }
  }

  lemma NoPostings(entries: seq<IndexEntry>, term: string)
    ensures PostingsOf(entries[..0], term) == [] && ListsExactly([], entries, 0, term)
  {
  }

  ghost predicate IsIndexOf(postings: Index, entries: seq<IndexEntry>) {
    && (forall t :: t in postings ==> postings[t] == PostingsOf(entries, t) && postings[t] != [])
    && (forall t :: t !in postings ==> PostingsOf(entries, t) == [])
  }

  /** The frequency table of one entry. */
  ghost predicate Counts(tf: map<string, nat>, tokens: seq<string>) {
    && (forall t :: t in tf ==> tf[t] == Frequency(tokens, t) > 0)
    && (forall t :: t !in tf ==> Frequency(tokens, t) == 0)
  }

  // ---------------------------------------------------------------- ranking

  datatype Scored = Scored(score: real, entry: nat)

  /** Higher scores first, then lower places. */
  predicate Before(a: Scored, b: Scored) {
    a.score > b.score || (a.score == b.score && a.entry < b.entry)
  }

  /** The best k of the candidates, in order. */
  ghost predicate TopK(ranked: seq<Scored>, candidates: set<Scored>, k: nat) {
    && |ranked| == (if k <= |candidates| then k else |candidates|)
    && (forall i, j :: 0 <= i < j < |ranked| ==> Before(ranked[i], ranked[j]))
    && (forall x :: x in ranked ==> x in candidates)
    && (forall x, y :: x in ranked && y in candidates && y !in ranked ==> Before(x, y))
  }

  /** The candidates of a naive search: every entry with a positive score. */
  function Candidates(weight: Weight, entries: seq<IndexEntry>, query: seq<string>): (s: set<Scored>)
    ensures forall x :: x in s <==>
              x.entry < |entries| && x.score == NaiveScore(weight, entries, query, x.entry) > 0.0
  {
    set i | 0 <= i < |entries| && NaiveScore(weight, entries, query, i) > 0.0
          :: Scored(NaiveScore(weight, entries, query, i), i)
  }

  /** There is only one ranking of distinct places. */
  lemma {:induction false} TopKUnique(a: seq<Scored>, b: seq<Scored>, candidates: set<Scored>, k: nat)
    requires TopK(a, candidates, k) && TopK(b, candidates, k)
    requires forall x, y :: x in candidates && y in candidates && x.entry == y.entry ==> x == y
    ensures a == b
    decreases k
  {
    if a == [] {
    } else {
      var x, y := a[0], b[0];
      assert x in a && y in b;
      FirstIsBest(a, candidates, k, y);
      FirstIsBest(b, candidates, k, x);
      TopKUnique(a[1..], b[1..], candidates - {x}, k - 1);
      assert a == [x] + a[1..] && b == [y] + b[1..];
    }
  }

  /** The results name the ranked entries, in order, with their scores. */
  ghost predicate Lists(results: seq<SearchResult>, entries: seq<IndexEntry>, ranked: seq<Scored>) {
    && |results| == |ranked|
    && forall j :: 0 <= j < |results| ==>
         ranked[j].entry < |entries| && results[j] == ResultOf(entries[ranked[j].entry], ranked[j].score)
  }

  /** What a naive search answers: the best k of all entries with a positive score. */
  ghost predicate IsAnswer(results: seq<SearchResult>, weight: Weight, entries: seq<IndexEntry>, query: seq<string>,
                           k: nat) {
    exists ranked :: TopK(ranked, Candidates(weight, entries, query), k) && Lists(results, entries, ranked)
  }

  /** A query has one answer only. */
  lemma AnswerUnique(a: seq<SearchResult>, b: seq<SearchResult>, weight: Weight, entries: seq<IndexEntry>,
                     query: seq<string>, k: nat)
    requires IsAnswer(a, weight, entries, query, k) && IsAnswer(b, weight, entries, query, k)
    ensures a == b
  {
    hide TopK, NaiveScore;
    var x :| TopK(x, Candidates(weight, entries, query), k) && Lists(a, entries, x);
    var y :| TopK(y, Candidates(weight, entries, query), k) && Lists(b, entries, y);
    TopKUnique(x, y, Candidates(weight, entries, query), k);
  }

  lemma FirstIsBest(a: seq<Scored>, candidates: set<Scored>, k: nat, y: Scored)
    ensures TopK(a, candidates, k) && a != [] && y in candidates ==> a[0] == y || Before(a[0], y)
  {
  }

  // ---------------------------------------------------------------- the class

  class MemorySearch {
    var entries: seq<IndexEntry>
    var postings: Index

    constructor ()
      ensures entries == [] && IsIndexOf(postings, entries)
    {
      entries, postings := [], map[];
    }

    /** The counting loop of rebuild_index. */
    method CountTerms(tokens: seq<string>) returns (tf: map<string, nat>)
      ensures Counts(tf, tokens)
    {
      tf := map[];
      for i := 0 to |tokens|
        invariant Counts(tf, tokens[..i])
      {
        assert tokens[..i + 1][..i] == tokens[..i];
        var t := tokens[i];
        tf := tf[t := if t in tf then tf[t] + 1 else 1];
      }
      assert tokens[..|tokens|] == tokens;
    }

    /** One entry's terms go to the ends of their lists; the order of the terms does not matter. */
    method AddEntry(i: nat)
      requires i < |entries| && IsIndexOf(postings, entries[..i])
      modifies this`postings
      ensures IsIndexOf(postings, entries[..i + 1])
    {
      hide IsIndexOf, Counts, Partly;
      var tf := CountTerms(entries[i].tokens);
      var left := tf.Keys;
      ghost var before := postings;
      PartlyAtFirst(before, i, tf);
      while left != {}
        invariant left <= tf.Keys
        invariant Partly(before, postings, i, tf, left)
        decreases |left|
      {
        var t :| t in left;
        PartlyNext(before, postings, i, tf, left, t);
        left := left - {t};
        postings := postings[t := (if t in postings then postings[t] else []) + [Posting(i, tf[t])]];
      }
      EntryAdded(before, postings, entries, i, tf);
    }

    /** rebuild_index. */
    method RebuildIndex()
      modifies this`postings
      ensures IsIndexOf(postings, entries)
    {
      hide PostingsOf;
      postings := map[];
      for i := 0 to |entries|
        invariant IsIndexOf(postings, entries[..i])
      {
        AddEntry(i);
      }
      assert entries[..|entries|] == entries;
    }

    /** index_file_locked and the rebuild that follows, from the entries read off the file. */
    method IndexEntries(more: seq<IndexEntry>)
      modifies this
      ensures entries == old(entries) + more && IsIndexOf(postings, entries)
    {
      entries := entries + more;
      RebuildIndex();
    }

    /** The scores gathered from the postings of the query's terms. */
    method GatherScores(weight: Weight, query: seq<string>) returns (scores: map<nat, real>)
      requires IsIndexOf(postings, entries)
      ensures forall i :: i in scores ==> i < |entries| && scores[i] == NaiveScore(weight, entries, query, i)
      ensures forall i :: 0 <= i < |entries| && i !in scores ==> NaiveScore(weight, entries, query, i) == 0.0
    {
      hide IsIndexOf, PostingsOf, Frequency, TermScore;
      scores := map[];
      for q := 0 to |query|
        invariant forall i :: i in scores ==> i < |entries|
        invariant forall i :: 0 <= i < |entries| ==> Value(scores, i) == NaiveScore(weight, entries, query[..q], i)
      {
        assert query[..q + 1][..q] == query[..q];
        scores := AddTerm(weight, query[q], scores);
      }
      assert query[..|query|] == query;
      assert forall i :: 0 <= i < |entries| ==> Value(scores, i) == NaiveScore(weight, entries, query, i);
    }

    /** The inner loop: the postings of one term. */
    method AddTerm(weight: Weight, term: string, before: map<nat, real>) returns (scores: map<nat, real>)
      requires IsIndexOf(postings, entries)
      requires forall i :: i in before ==> i < |entries|
      ensures forall i :: i in scores ==> i < |entries|
      ensures forall i :: 0 <= i < |entries| ==>
                Value(scores, i) == Value(before, i) + TermScore(weight, entries, term, i)
    {
      hide TermScore, IsIndexOf, PostingsOf, Frequency;
      scores := before;
      TermListed(weight, postings, entries, term);
      if term !in postings {
        return;
      }
      var plist := postings[term];
      var df := |plist|;
      for k := 0 to |plist|
        invariant forall i :: i in scores ==> i < |entries|
        invariant forall i :: 0 <= i < |entries| ==>
                    Value(scores, i) == Value(before, i) + Added(weight, entries, df, plist[..k], i)
      {
        assert plist[..k + 1][..k] == plist[..k];
        var p := plist[k];
        assert p in plist;
        var w := weight(df, p.frequency, |entries[p.entry].tokens|);
        scores := scores[p.entry := (if p.entry in scores then scores[p.entry] else 0.0) + w];
      }
      assert plist[..|plist|] == plist;
    }

    /** The part of Search behind the scores: the positive ones, the best `k` of them first. */
    method Rank(scores: map<nat, real>, maxResults: int) returns (ranked: seq<Scored>)
      ensures TopK(ranked, PositiveScores(scores), if maxResults > 0 then maxResults else 0)
    {
      hide PositiveScores;
      var left := PositiveScores(scores);
      var k := if maxResults > 0 then maxResults else 0;
      ranked := [];
      ghost var all := left;
      while |ranked| < k && left != {}
        invariant Ranking(ranked, left, all) && |ranked| <= k
        decreases |left|
      {
        var best := Best(left);
        ranked := ranked + [best];
        left := left - {best};
      }
    }

    method Best(left: set<Scored>) returns (best: Scored)
      requires left != {} && forall x, y :: x in left && y in left && x.entry == y.entry ==> x == y
      ensures best in left && forall x :: x in left && x != best ==> Before(best, x)
    {
      var rest := left;
      best :| best in rest;
      rest := rest - {best};
      while rest != {}
        invariant rest <= left && best in left && best !in rest
        invariant forall x :: x in left && x !in rest && x != best ==> Before(best, x)
        decreases |rest|
      {
        var x :| x in rest;
        rest := rest - {x};
        if Before(x, best) {
          best := x;
        }
      }
    }

    /** MemorySearch::Search, on the tokens of the query. */
    method Search(weight: Weight, query: seq<string>, maxResults: int) returns (results: seq<SearchResult>)
      requires IsIndexOf(postings, entries)
      ensures IsAnswer(results, weight, entries, query, if maxResults > 0 then maxResults else 0)
    {
      hide IsIndexOf, TopK, NaiveScore, Candidates, PositiveScores;
      results := [];
      if query == [] || entries == [] {
        NoCandidates(weight, entries, query, if maxResults > 0 then maxResults else 0);
        assert Lists(results, entries, []);
        return;
      }
      var scores := GatherScores(weight, query);
      var order := Rank(scores, maxResults);
      SameCandidates(weight, entries, query, scores);
      InCandidates(order, weight, entries, query, if maxResults > 0 then maxResults else 0);
      for j := 0 to |order|
        invariant |results| == j
        invariant forall i :: 0 <= i < j ==> results[i] == ResultOf(entries[order[i].entry], order[i].score)
      {
        results := results + [ResultOf(entries[order[j].entry], order[j].score)];
      }
      assert Lists(results, entries, order);
    }
  }

  function ResultOf(entry: IndexEntry, score: real): SearchResult {
    SearchResult(entry.filepath, entry.content, score, entry.lineNumber)
  }

  function Value(scores: map<nat, real>, i: nat): real {
    if i in scores then scores[i] else 0.0
  }

  /** What a list of postings adds to the score of an entry. */
  function Added(weight: Weight, entries: seq<IndexEntry>, df: nat, ps: seq<Posting>, i: nat): real
    requires forall p :: p in ps ==> p.entry < |entries|
  {
    if ps == [] then 0.0
    else
      var p := ps[|ps| - 1];
      Added(weight, entries, df, ps[..|ps| - 1], i) +
      if p.entry == i then weight(df, p.frequency, |entries[p.entry].tokens|) else 0.0
  }

  lemma {:induction false} AddedByPrefix(weight: Weight, entries: seq<IndexEntry>, df: nat, n: nat, term: string,
                                         i: nat)
    requires n <= |entries| && i < |entries|
    ensures forall p :: p in PostingsOf(entries[..n], term) ==> p.entry < |entries|
    ensures Added(weight, entries, df, PostingsOf(entries[..n], term), i) ==
            var f := Frequency(entries[i].tokens, term);
            if i < n && f > 0 then weight(df, f, |entries[i].tokens|) else 0.0
  {
    hide Frequency, PostingsOf, Added;
    if n > 0 {
      AddedByPrefix(weight, entries, df, n - 1, term, i);
      PostingsNext(entries, n - 1, term);
      var ps, f := PostingsOf(entries[..n - 1], term), Frequency(entries[n - 1].tokens, term);
      if f > 0 {
        AddedSnoc(weight, entries, df, ps, Posting(n - 1, f), i);
      } else {
        assert ps + [] == ps;
      }
    } else {
      NothingAdded(weight, entries, df);
      NoPostings(entries, term);
    }
  }

  lemma AddedSnoc(weight: Weight, entries: seq<IndexEntry>, df: nat, ps: seq<Posting>, p: Posting, i: nat)
    requires (forall x :: x in ps ==> x.entry < |entries|) && p.entry < |entries|
    ensures Added(weight, entries, df, ps + [p], i) ==
            Added(weight, entries, df, ps, i) +
            if p.entry == i then weight(df, p.frequency, |entries[p.entry].tokens|) else 0.0
  {
    assert (ps + [p])[..|ps|] == ps;
  }

  /** The postings of a term add to every entry what the naive search gives it for the term. */
  lemma TermListed(weight: Weight, postings: Index, entries: seq<IndexEntry>, term: string)
    requires IsIndexOf(postings, entries)
    ensures term !in postings ==> forall i :: 0 <= i < |entries| ==> TermScore(weight, entries, term, i) == 0.0
    ensures term in postings ==>
              && (forall p :: p in postings[term] ==> p.entry < |entries|)
              && (forall i :: 0 <= i < |entries| ==>
                    TermScore(weight, entries, term, i) == Added(weight, entries, |postings[term]|, postings[term], i))
  {
    hide Frequency, PostingsOf, Added;
    assert entries[..|entries|] == entries;
    PostingsListExactly(entries, |entries|, term);
    forall i | 0 <= i < |entries|
      ensures TermScore(weight, entries, term, i) ==
              Added(weight, entries, |PostingsOf(entries, term)|, PostingsOf(entries, term), i)
    {
      AddedByPrefix(weight, entries, |PostingsOf(entries, term)|, |entries|, term, i);
    }
    if term !in postings {
      NothingAdded(weight, entries, 0);
    }
  }

  lemma NothingAdded(weight: Weight, entries: seq<IndexEntry>, df: nat)
    ensures forall i: nat :: Added(weight, entries, df, [], i) == 0.0
  {
  }

  // ---------------------------------------------------------------- ranking, step by step

  function PositiveScores(scores: map<nat, real>): (s: set<Scored>)
    ensures forall x :: x in s <==> x.entry in scores && scores[x.entry] == x.score > 0.0
  {
    set i | i in scores && scores[i] > 0.0 :: Scored(scores[i], i)
  }

  /** The state of the selection: the best so far in order, and the rest behind all of them. */
  ghost predicate Ranking(ranked: seq<Scored>, left: set<Scored>, all: set<Scored>) {
    && |ranked| + |left| == |all| && left <= all
    && (forall i, j :: 0 <= i < j < |ranked| ==> Before(ranked[i], ranked[j]))
    && (forall x :: x in ranked ==> x in all && x !in left)
    && (forall y :: y in all ==> y in ranked || y in left)
    && (forall x, y :: x in ranked && y in left ==> Before(x, y))
  }

  lemma NoCandidates(weight: Weight, entries: seq<IndexEntry>, query: seq<string>, k: nat)
    requires query == [] || entries == []
    ensures TopK([], Candidates(weight, entries, query), k)
  {
    assert Candidates(weight, entries, query) == {};
  }

  lemma SameCandidates(weight: Weight, entries: seq<IndexEntry>, query: seq<string>, scores: map<nat, real>)
    requires forall i :: i in scores ==> i < |entries| && scores[i] == NaiveScore(weight, entries, query, i)
    requires forall i :: 0 <= i < |entries| && i !in scores ==> NaiveScore(weight, entries, query, i) == 0.0
    ensures PositiveScores(scores) == Candidates(weight, entries, query)
  {
    hide NaiveScore;
  }

  lemma InCandidates(ranked: seq<Scored>, weight: Weight, entries: seq<IndexEntry>, query: seq<string>, k: nat)
    ensures TopK(ranked, Candidates(weight, entries, query), k) ==>
              (forall j :: 0 <= j < |ranked| ==> ranked[j].entry < |entries|)
  {
  }

  function ListOf(postings: Index, term: string): seq<Posting> {
    if term in postings then postings[term] else []
  }

  /** The lists while the terms of entry `i` are added: those in `left` are still to come. */
  ghost predicate Partly(before: Index, after: Index, i: nat, tf: map<string, nat>, left: set<string>) {
    && (forall t :: t in after <==> t in before || (t in tf && t !in left))
    && (forall t :: t in after ==>
          after[t] == ListOf(before, t) + if t in tf && t !in left then [Posting(i, tf[t])] else [])
  }

  lemma PartlyAtFirst(before: Index, i: nat, tf: map<string, nat>)
    ensures Partly(before, before, i, tf, tf.Keys)
  {
    assert forall t :: ListOf(before, t) + [] == ListOf(before, t);
  }

  lemma PartlyNext(before: Index, after: Index, i: nat, tf: map<string, nat>, left: set<string>, t: string)
    requires Partly(before, after, i, tf, left) && t in left && t in tf
    ensures Partly(before, after[t := ListOf(after, t) + [Posting(i, tf[t])]], i, tf, left - {t})
  {
    assert ListOf(after, t) == ListOf(before, t) + [];
    assert ListOf(before, t) + [] == ListOf(before, t);
  }

  lemma EntryAdded(before: Index, after: Index, entries: seq<IndexEntry>, i: nat, tf: map<string, nat>)
    requires i < |entries| && IsIndexOf(before, entries[..i]) && Counts(tf, entries[i].tokens)
    requires Partly(before, after, i, tf, {})
    ensures IsIndexOf(after, entries[..i + 1])
  {
    hide Frequency, PostingsOf;
    forall t ensures PostingsOf(entries[..i + 1], t) ==
                     ListOf(before, t) + if t in tf then [Posting(i, tf[t])] else []
    {
      PostingsNext(entries, i, t);
    }
  }

  lemma PostingsNext(entries: seq<IndexEntry>, i: nat, term: string)
    requires i < |entries|
    ensures var f := Frequency(entries[i].tokens, term);
            PostingsOf(entries[..i + 1], term) ==
            PostingsOf(entries[..i], term) + if f > 0 then [Posting(i, f)] else []
  {
    assert entries[..i + 1][..i] == entries[..i];
  }

  // ---------------------------------------------------------------- the answer in full

  lemma {:induction false} FrequencyCounts(tokens: seq<string>, term: string)
    ensures Frequency(tokens, term) == multiset(tokens)[term]
  {
    if tokens == [] {
    } else {
      var n := |tokens| - 1;
      assert tokens == tokens[..n] + [tokens[n]];
      FrequencyCounts(tokens[..n], term);
    }
  }

  ghost predicate Holds(entries: seq<IndexEntry>, j: nat, term: string) {
    j < |entries| && term in entries[j].tokens
  }

  lemma {:induction false} EntriesCounted(entries: seq<IndexEntry>, n: nat, term: string)
    requires n <= |entries|
    ensures EntriesWith(entries[..n], term) == |set j: nat | j < n && Holds(entries, j, term)|
  {
    hide Frequency;
    if n == 0 {
      assert (set j: nat | j < n && Holds(entries, j, term)) == {};
    } else {
      EntriesCounted(entries, n - 1, term);
      FrequencyCounts(entries[n - 1].tokens, term);
      assert entries[..n][..n - 1] == entries[..n - 1];
      var before := set j: nat | j < n - 1 && Holds(entries, j, term);
      assert (set j: nat | j < n && Holds(entries, j, term)) ==
             if Holds(entries, n - 1, term) then before + {n - 1} else before;
    }
  }

  /** The score of an entry is a sum over the query, a word said twice counting twice; a word that the entry holds
      adds the weight for the number of entries that hold it, its number in this one, and the entry's length. */
  lemma ScoreReads(weight: Weight, entries: seq<IndexEntry>, query: seq<string>, term: string, i: nat)
    requires i < |entries|
    ensures NaiveScore(weight, entries, [], i) == 0.0
    ensures NaiveScore(weight, entries, query + [term], i) == NaiveScore(weight, entries, query, i) +
            var tokens := entries[i].tokens;
            if term !in tokens then 0.0
            else weight(|set j: nat | j < |entries| && Holds(entries, j, term)|, multiset(tokens)[term], |tokens|)
  {
    hide Frequency, EntriesWith;
    assert (query + [term])[..|query|] == query;
    FrequencyCounts(entries[i].tokens, term);
    EntriesCounted(entries, |entries|, term);
    assert entries[..|entries|] == entries;
  }

  /** An answer names as many entries as asked for, fewer only when no more score: each once, with its file, line,
      content and score, the higher score first and of equal ones the earlier entry; and whatever is left out comes
      behind. */
  lemma AnswerReads(results: seq<SearchResult>, weight: Weight, entries: seq<IndexEntry>, query: seq<string>, k: nat)
    returns (places: seq<nat>)
    requires IsAnswer(results, weight, entries, query, k)
    ensures |places| == |results| <= k && forall j :: 0 <= j < |places| ==> places[j] < |entries|
    ensures forall j :: 0 <= j < |places| ==>
              var e := entries[places[j]];
              results[j].score > 0.0 &&
              results[j] ==
              SearchResult(e.filepath, e.content, NaiveScore(weight, entries, query, places[j]), e.lineNumber)
    ensures forall i, j :: 0 <= i < j < |places| ==>
              || results[i].score > results[j].score
              || (results[i].score == results[j].score && places[i] < places[j])
    ensures forall i, j :: 0 <= i < |entries| && i !in places && NaiveScore(weight, entries, query, i) > 0.0 &&
                           0 <= j < |places| ==>
              || results[j].score > NaiveScore(weight, entries, query, i)
              || (results[j].score == NaiveScore(weight, entries, query, i) && places[j] < i)
    ensures |results| < k ==>
              forall i :: 0 <= i < |entries| && NaiveScore(weight, entries, query, i) > 0.0 ==> i in places
  {
    hide NaiveScore, TopK;
    var ranked: seq<Scored> :| TopK(ranked, Candidates(weight, entries, query), k) && Lists(results, entries, ranked);
    InCandidates(ranked, weight, entries, query, k);
    RankedReads(ranked, weight, entries, query, k);
    places := Places(ranked);
    forall i | 0 <= i < |entries| && i !in places && NaiveScore(weight, entries, query, i) > 0.0
      ensures |results| == k
      ensures forall j :: 0 <= j < |ranked| ==> Before(ranked[j], Scored(NaiveScore(weight, entries, query, i), i))
    {
      var y := Scored(NaiveScore(weight, entries, query, i), i);
      NotRanked(ranked, y);
      LeftOut(ranked, Candidates(weight, entries, query), k, y);
    }
  }

  function Places(ranked: seq<Scored>): (places: seq<nat>)
    ensures |places| == |ranked| && forall j :: 0 <= j < |ranked| ==> places[j] == ranked[j].entry
  {
    seq(|ranked|, j requires 0 <= j < |ranked| => ranked[j].entry)
  }

  lemma NotRanked(ranked: seq<Scored>, y: Scored)
    ensures y.entry !in Places(ranked) ==> y !in ranked
  {
    if j :| 0 <= j < |ranked| && ranked[j] == y {
      assert Places(ranked)[j] == y.entry;
    }
  }

  lemma RankedReads(ranked: seq<Scored>, weight: Weight, entries: seq<IndexEntry>, query: seq<string>, k: nat)
    requires TopK(ranked, Candidates(weight, entries, query), k)
    ensures |ranked| <= k
    ensures forall j :: 0 <= j < |ranked| ==>
              && ranked[j].entry < |entries|
              && ranked[j].score == NaiveScore(weight, entries, query, ranked[j].entry) > 0.0
    ensures forall i, j :: 0 <= i < j < |ranked| ==> Before(ranked[i], ranked[j])
  {
    hide NaiveScore;
    assert forall j :: 0 <= j < |ranked| ==> ranked[j] in ranked;
  }

  lemma LeftOut(ranked: seq<Scored>, candidates: set<Scored>, k: nat, y: Scored)
    requires TopK(ranked, candidates, k) && y in candidates && y !in ranked
    ensures |ranked| == k && forall j :: 0 <= j < |ranked| ==> Before(ranked[j], y)
  {
    SetOfRanked(ranked, candidates, y);
    assert forall j :: 0 <= j < |ranked| ==> ranked[j] in ranked;
  }

  lemma SetOfRanked(ranked: seq<Scored>, candidates: set<Scored>, y: Scored)
    requires (forall x :: x in ranked ==> x in candidates) && y in candidates && y !in ranked
    requires forall i, j :: 0 <= i < j < |ranked| ==> Before(ranked[i], ranked[j])
    ensures |ranked| < |candidates|
  {
    if ranked == [] {
    } else {
      var n := |ranked| - 1;
      assert ranked[n] !in ranked[..n];
      SetOfRanked(ranked[..n], candidates - {ranked[n]}, y);
    }
  }
}
