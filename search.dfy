/**
  * The dashboard's note search (the `filteredNotes` computation in
  * src/pages/Dashboard.jsx): a case-insensitive substring filter over each
  * note's title and content, driven by the `q` URL parameter.
  */
module NoteSearch {
  import opened Wrappers
  import opened Sequences

  /** A note as the dashboard receives it; title and content may be null. */
  datatype Note = Note(id: string, title: Option<string>, content: Option<string>)

  /** `searchParams.get('q') || ''`: an absent parameter is the empty query. */
  function QueryOf(param: Option<string>): (query: string)
    ensures param.Some? ==> query == param.value
    ensures param.None? ==> query == ""
  {
    match param
    case None => ""
    case Some(s) => s
  }

  /** Lowercasing of one character (ASCII case folding). */
  function LowerChar(c: char): (d: char)
    ensures 'A' <= c <= 'Z' ==> 'a' <= d <= 'z' && d as int - c as int == 32
    ensures !('A' <= c <= 'Z') ==> d == c
  {
    if 'A' <= c <= 'Z' then (c as int + 32) as char else c
  }

  /** `String.prototype.toLowerCase`, character by character. */
  function Lower(s: string): (r: string)
    ensures |r| == |s|
    ensures forall i :: 0 <= i < |s| ==> r[i] == LowerChar(s[i])
  {
    if s == [] then [] else [LowerChar(s[0])] + Lower(s[1..])
  }

  /** Lowercasing twice is lowercasing once. */
  lemma LowerIdempotent(s: string)
    ensures Lower(Lower(s)) == Lower(s)
  {
    assert forall i :: 0 <= i < |s| ==> LowerChar(LowerChar(s[i])) == LowerChar(s[i]);
  }

  /** `needle` occurs in `hay` starting at position `i`. */
  ghost predicate OccursAt(hay: string, needle: string, i: int)
  {
    0 <= i && i + |needle| <= |hay| && hay[i..i + |needle|] == needle
  }

  /** `String.prototype.includes`: try every starting position from the left. */
  predicate Includes(hay: string, needle: string)
    decreases |hay|
  {
    needle <= hay || (|hay| > 0 && Includes(hay[1..], needle))
  }

  /** Occurrences in `hay` after its first character are the occurrences in its tail. */
  lemma OccursAtShift(hay: string, needle: string, i: int)
    requires |hay| > 0 && 0 <= i
    ensures OccursAt(hay, needle, i + 1) <==> OccursAt(hay[1..], needle, i)
  {
    if i + 1 + |needle| <= |hay| {
      assert hay[1..][i..i + |needle|] == hay[i + 1..i + 1 + |needle|];
    }
  }

  /** `includes` agrees with the definition of a substring occurrence. */
  lemma {:induction false} IncludesIffOccurs(hay: string, needle: string)
    ensures Includes(hay, needle) <==> exists i :: OccursAt(hay, needle, i)
    decreases |hay|
  {
    if needle <= hay {
      assert OccursAt(hay, needle, 0);
    } else if |hay| == 0 {
      assert forall i :: !OccursAt(hay, needle, i);
    } else {
      IncludesIffOccurs(hay[1..], needle);
      forall i
        ensures OccursAt(hay, needle, i) <==> 1 <= i && OccursAt(hay[1..], needle, i - 1)
      {
        if 1 <= i {
          OccursAtShift(hay, needle, i - 1);
        } else {
          assert OccursAt(hay, needle, i) ==> i == 0 && needle <= hay;
        }
      }
      if Includes(hay[1..], needle) {
        var i :| OccursAt(hay[1..], needle, i);
        assert OccursAt(hay, needle, i + 1);
      }
    }
  }

  /** The empty query is found in every string; the empty string contains only the empty query. */
  lemma IncludesEmpty(hay: string, needle: string)
    ensures Includes(hay, "")
    ensures Includes("", needle) <==> needle == ""
  {
  }

  /** `n.title?.toLowerCase() || ''`: a missing field reads as the empty string. */
  function FieldText(field: Option<string>): (text: string)
    ensures field.None? ==> text == ""
    ensures field.Some? ==> text == Lower(field.value)
  {
    match field
    case None => ""
    case Some(s) => Lower(s)
  }

  /** The filter's predicate for an already lowercased query. */
  predicate Matches(n: Note, lowerQuery: string) {
    Includes(FieldText(n.title), lowerQuery) || Includes(FieldText(n.content), lowerQuery)
  }

  /** `notes.filter(n => Matches(n, lowerQuery))`. */
  function FilterMatching(notes: seq<Note>, lowerQuery: string): (kept: seq<Note>)
    ensures |kept| <= |notes|
    ensures forall n :: n in kept <==> n in notes && Matches(n, lowerQuery)
  {
    if notes == [] then []
    else
      var rest := FilterMatching(notes[1..], lowerQuery);
      if Matches(notes[0], lowerQuery) then [notes[0]] + rest else rest
  }

  /**
    * `filteredNotes`: the whole list for an empty query; otherwise the notes
    * whose lowercased title or content contains the lowercased query.
    */
  function FilteredNotes(notes: seq<Note>, query: string): (result: seq<Note>)
    ensures query == "" ==> result == notes
    ensures query != "" ==> forall n :: n in result <==> n in notes && Matches(n, Lower(query))
  {
    if query == "" then notes
    else FilterMatching(notes, Lower(query))
  }

  /** The filter keeps every copy of a matching note and no copy of any other. */
  lemma {:induction false} FilterMatchingKeepsEveryCopy(notes: seq<Note>, lowerQuery: string)
    ensures forall n ::
      multiset(FilterMatching(notes, lowerQuery))[n] == if Matches(n, lowerQuery) then multiset(notes)[n] else 0
    decreases |notes|
  {
    if notes != [] {
      FilterMatchingKeepsEveryCopy(notes[1..], lowerQuery);
      assert notes == [notes[0]] + notes[1..];
      assert multiset(notes) == multiset{notes[0]} + multiset(notes[1..]);
    }
  }

  /**
    * For a non-empty query each matching note appears in the search result
    * as often as in the input, and every other note not at all.
    */
  lemma FilteredNotesKeepsEveryCopy(notes: seq<Note>, query: string)
    requires query != ""
    ensures forall n ::
      multiset(FilteredNotes(notes, query))[n] == if Matches(n, Lower(query)) then multiset(notes)[n] else 0
  {
    FilterMatchingKeepsEveryCopy(notes, Lower(query));
  }

  /** Without a `q` parameter the dashboard lists every note. */
  lemma AbsentQueryKeepsAll(notes: seq<Note>)
    ensures FilteredNotes(notes, QueryOf(None)) == notes
  {
  }

  /** Filtering keeps relative order and neither duplicates nor invents notes. */
  lemma {:induction false} FilterMatchingIsSubsequence(notes: seq<Note>, lowerQuery: string)
    ensures IsSubsequence(FilterMatching(notes, lowerQuery), notes)
    decreases |notes|
  {
    if notes != [] {
      var rest := FilterMatching(notes[1..], lowerQuery);
      FilterMatchingIsSubsequence(notes[1..], lowerQuery);
      if !Matches(notes[0], lowerQuery) && rest != [] {
        assert rest[0] in notes[1..];
        assert rest[0] != notes[0];
      }
    }
  }

  /** The search result is an order-preserving selection from the notes. */
  lemma FilteredNotesIsSubsequence(notes: seq<Note>, query: string)
    ensures IsSubsequence(FilteredNotes(notes, query), notes)
    ensures multiset(FilteredNotes(notes, query)) <= multiset(notes)
  {
    if query == "" {
      SubsequenceReflexive(notes);
    } else {
      FilterMatchingIsSubsequence(notes, Lower(query));
    }
    SubsequenceMultiset(FilteredNotes(notes, query), notes);
  }

  /** Soundness: every kept note contains the query in its title or content, ignoring case. */
  lemma FilteredNotesSound(notes: seq<Note>, query: string, n: Note)
    requires n in FilteredNotes(notes, query)
    ensures exists i :: OccursAt(FieldText(n.title), Lower(query), i) ||
                        OccursAt(FieldText(n.content), Lower(query), i)
  {
    IncludesIffOccurs(FieldText(n.title), Lower(query));
    IncludesIffOccurs(FieldText(n.content), Lower(query));
  }

  /** Completeness: a note containing the query in its title or content, ignoring case, is kept. */
  lemma FilteredNotesComplete(notes: seq<Note>, query: string, n: Note, i: int)
    requires n in notes
    requires OccursAt(FieldText(n.title), Lower(query), i) ||
             OccursAt(FieldText(n.content), Lower(query), i)
    ensures n in FilteredNotes(notes, query)
  {
    IncludesIffOccurs(FieldText(n.title), Lower(query));
    IncludesIffOccurs(FieldText(n.content), Lower(query));
  }

  /** A note with neither title nor content never matches a non-empty query. */
  lemma EmptyNoteExcluded(notes: seq<Note>, query: string, n: Note)
    requires query != "" && n.title.None? && n.content.None?
    ensures n !in FilteredNotes(notes, query)
  {
  }

  /** The query's case does not matter. */
  lemma FilteredNotesCaseInsensitive(notes: seq<Note>, query: string)
    ensures FilteredNotes(notes, Lower(query)) == FilteredNotes(notes, query)
  {
    LowerIdempotent(query);
  }

  /** Filtering the kept notes again keeps all of them. */
  lemma {:induction false} FilterMatchingIdempotent(notes: seq<Note>, lowerQuery: string)
    ensures FilterMatching(FilterMatching(notes, lowerQuery), lowerQuery) == FilterMatching(notes, lowerQuery)
    decreases |notes|
  {
    if notes != [] {
      FilterMatchingIdempotent(notes[1..], lowerQuery);
      var rest := FilterMatching(notes[1..], lowerQuery);
      if Matches(notes[0], lowerQuery) {
        assert ([notes[0]] + rest)[1..] == rest;
      }
    }
  }

  /** Searching the search result with the same query changes nothing. */
  lemma FilteredNotesIdempotent(notes: seq<Note>, query: string)
    ensures FilteredNotes(FilteredNotes(notes, query), query) == FilteredNotes(notes, query)
  {
    if query != "" {
      FilterMatchingIdempotent(notes, Lower(query));
    }
  }
}
