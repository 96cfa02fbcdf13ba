/**
 * The ASJP registry: word lists keyed by ISO code, built by folding the rows
 * of the database. When two rows carry the same ISO code, the one with more
 * concepts is kept; on a tie the later row wins.
 */
module Asjp {
  import opened Outcomes
  import opened Wordlists

  /** True when `p` holds no occurrence of the separator ", ". */
  predicate NoSeparator(p: string)
  {
    forall i :: 0 <= i < |p| - 1 ==> !(p[i] == ',' && p[i + 1] == ' ')
  }

  /** `", ".join(pieces)`. */
  function Join(pieces: seq<string>): string
  {
    if |pieces| == 0 then ""
    else if |pieces| == 1 then pieces[0]
    else pieces[0] + (", " + Join(pieces[1..]))
  }

  /**
   * `s.split(", ")`: the pieces between the occurrences of ", ", found from the
   * left. Even an empty string gives one (empty) piece.
   */
  function Split(s: string): (pieces: seq<string>)
    ensures |pieces| >= 1
    decreases |s|
  {
    if |s| == 0 then [""]
    else if |s| >= 2 && s[0] == ',' && s[1] == ' ' then [""] + Split(s[2..])
    else
      var rest := Split(s[1..]);
      [[s[0]] + rest[0]] + rest[1..]
  }

  /** Joining the pieces of `s` with ", " gives back `s`. */
  lemma {:induction false} SplitJoin(s: string)
    ensures Join(Split(s)) == s
    decreases |s|
  {
    if |s| == 0 {
    } else if |s| >= 2 && s[0] == ',' && s[1] == ' ' {
      assert Split(s) == [""] + Split(s[2..]);
      SplitJoin(s[2..]);
      JoinEmptyFirst(Split(s[2..]));
      assert s == ", " + s[2..];
    } else {
      var rest := Split(s[1..]);
      assert Split(s) == [[s[0]] + rest[0]] + rest[1..];
      SplitJoin(s[1..]);
      JoinExtendFirst(s[0], rest);
      assert s == [s[0]] + s[1..];
    }
  }

  /** An empty first piece leaves only its separator in the joined text. */
  lemma JoinEmptyFirst(pieces: seq<string>)
    requires |pieces| >= 1
    ensures Join([""] + pieces) == ", " + Join(pieces)
  {
    assert ([""] + pieces)[1..] == pieces;
  }

  /** Putting `c` in front of the first piece puts it in front of the joined text. */
  lemma JoinExtendFirst(c: char, pieces: seq<string>)
    requires |pieces| >= 1
    ensures Join([[c] + pieces[0]] + pieces[1..]) == [c] + Join(pieces)
  {
    var extended := [[c] + pieces[0]] + pieces[1..];
    if |pieces| > 1 {
      assert extended[1..] == pieces[1..];
      AppendAssociative([c], pieces[0], ", " + Join(pieces[1..]));
    }
  }

  lemma AppendAssociative<T>(a: seq<T>, b: seq<T>, c: seq<T>)
    ensures (a + b) + c == a + (b + c)
  {
  }

  /** The first piece of `s` is a prefix of `s`. */
  lemma {:induction false} SplitFirstIsPrefix(s: string)
    ensures Split(s)[0] <= s
    decreases |s|
  {
    if |s| > 0 && !(|s| >= 2 && s[0] == ',' && s[1] == ' ') {
      SplitFirstIsPrefix(s[1..]);
    }
  }

  /** No piece of `s` holds the separator. */
  lemma {:induction false} SplitNoSeparator(s: string)
    ensures forall k :: 0 <= k < |Split(s)| ==> NoSeparator(Split(s)[k])
    decreases |s|
  {
    if |s| == 0 {
    } else if |s| >= 2 && s[0] == ',' && s[1] == ' ' {
      SplitNoSeparator(s[2..]);
    } else {
      var rest := Split(s[1..]);
      SplitNoSeparator(s[1..]);
      SplitFirstIsPrefix(s[1..]);
      var first := [s[0]] + rest[0];
      assert NoSeparator(first) by {
        assert NoSeparator(rest[0]);
        if |rest[0]| > 0 {
          assert rest[0][0] == s[1];
        }
      }
    }
  }

  /**
   * One row of the database, as the loader hands it over: the ISO code and the
   * text of each concept column, empty when the language has no form for it.
   */
  datatype Row = Row(iso: string, fields: map<string, string>)

  /**
   * The concept map of a row: every non-empty concept column, split into its
   * forms.
   */
  function RowConcepts(row: Row): (concepts: map<string, seq<string>>)
    ensures forall c :: c in concepts <==> c in row.fields && row.fields[c] != ""
    ensures forall c :: c in concepts ==> |concepts[c]| >= 1
  {
    map c | c in row.fields && row.fields[c] != "" :: Split(row.fields[c])
  }

  /** The forms of each concept, joined with ", ", give back the row's column. */
  lemma RowConceptsJoin(row: Row)
    ensures forall c :: c in RowConcepts(row) ==> Join(RowConcepts(row)[c]) == row.fields[c]
  {
    forall c | c in RowConcepts(row)
      ensures Join(RowConcepts(row)[c]) == row.fields[c]
    {
      SplitJoin(row.fields[c]);
    }
  }

  /** A row read into its ISO code and word list. */
  datatype Entry = Entry(iso: string, wordlist: Wordlist)

  /** The word list built from one row. */
  function Load(row: Row): (entry: Entry)
    ensures entry.iso == row.iso && WellFormed(entry.wordlist)
  {
    Entry(row.iso, Wordlist(RowConcepts(row)))
  }

  /** Every row of `rows`, loaded. */
  function LoadAll(rows: seq<Row>): (entries: seq<Entry>)
    ensures |entries| == |rows|
    ensures forall k :: 0 <= k < |rows| ==> entries[k] == Load(rows[k])
  {
    seq(|rows|, k requires 0 <= k < |rows| => Load(rows[k]))
  }

  /** Every concept of the word list has at least one form. */
  predicate WellFormed(w: Wordlist)
  {
    forall c :: c in w.concepts ==> |w.concepts[c]| >= 1
  }

  /**
   * One step of the fold: store the entry's word list under its ISO code
   * unless the stored one has strictly more concepts.
   */
  function Merge(registry: map<string, Wordlist>, entry: Entry): (r: map<string, Wordlist>)
    ensures r.Keys == registry.Keys + {entry.iso}
    ensures forall iso :: iso in registry && iso != entry.iso ==> r[iso] == registry[iso]
    ensures r[entry.iso] == entry.wordlist || (entry.iso in registry && r[entry.iso] == registry[entry.iso])
    ensures r[entry.iso].Len() >= entry.wordlist.Len()
    ensures entry.iso in registry ==> r[entry.iso].Len() >= registry[entry.iso].Len()
    ensures entry.iso in registry && entry.wordlist.Len() == registry[entry.iso].Len() ==> r[entry.iso] == entry.wordlist
  {
    var wordlist := entry.wordlist;
    var kept := if entry.iso in registry && wordlist.Len() < registry[entry.iso].Len() then registry[entry.iso] else wordlist;
    registry[entry.iso := kept]
  }

  /** The registry after merging `entries` in order into an empty one. */
  function Fold(entries: seq<Entry>): map<string, Wordlist>
  {
    if entries == [] then map[] else Merge(Fold(entries[..|entries| - 1]), entries[|entries| - 1])
  }

  /** Storing the word list `Merge` keeps, under the entry's code, is `Merge`. */
  lemma MergeStep(registry: map<string, Wordlist>, entry: Entry, kept: Wordlist)
    requires entry.iso in registry && entry.wordlist.Len() < registry[entry.iso].Len() ==> kept == registry[entry.iso]
    requires !(entry.iso in registry && entry.wordlist.Len() < registry[entry.iso].Len()) ==> kept == entry.wordlist
    ensures registry[entry.iso := kept] == Merge(registry, entry)
  {
  }

  /** Folding one more entry merges it into the registry folded so far. */
  lemma FoldStep(entries: seq<Entry>, i: nat)
    requires i < |entries|
    ensures Fold(entries[..i + 1]) == Merge(Fold(entries[..i]), entries[i])
  {
    assert entries[..i + 1][..i] == entries[..i];
  }

  /** The registry holds exactly the ISO codes of the entries. */
  lemma {:induction false} FoldKeys(entries: seq<Entry>)
    ensures forall j :: 0 <= j < |entries| ==> entries[j].iso in Fold(entries)
    ensures forall iso :: iso in Fold(entries) ==> exists j :: 0 <= j < |entries| && entries[j].iso == iso
  {
    if entries != [] {
      var n := |entries| - 1;
      var init := entries[..n];
      FoldKeys(init);
      forall j | 0 <= j < |entries|
        ensures entries[j].iso in Fold(entries)
      {
        if j < n {
          assert init[j] == entries[j];
        }
      }
      forall iso | iso in Fold(entries)
        ensures exists j :: 0 <= j < |entries| && entries[j].iso == iso
      {
        if iso != entries[n].iso {
          assert iso in Fold(init);
          var j :| 0 <= j < n && init[j].iso == iso;
          assert entries[j].iso == iso;
        }
      }
    }
  }

  /** Merging well-formed word lists stores only well-formed word lists. */
  lemma {:induction false} FoldWellFormed(entries: seq<Entry>)
    requires forall k :: 0 <= k < |entries| ==> WellFormed(entries[k].wordlist)
    ensures forall iso :: iso in Fold(entries) ==> WellFormed(Fold(entries)[iso])
  {
    if entries != [] {
      FoldWellFormed(entries[..|entries| - 1]);
    }
  }

  /**
   * Entry `k` is the one whose word list is stored for `iso`: no entry for
   * `iso` has more concepts, and every later entry for `iso` has strictly fewer.
   */
  predicate IsWinner(entries: seq<Entry>, iso: string, k: nat)
  {
    && k < |entries|
    && entries[k].iso == iso
    && (forall j :: 0 <= j < |entries| && entries[j].iso == iso ==> entries[j].wordlist.Len() <= entries[k].wordlist.Len())
    && (forall j :: k < j < |entries| && entries[j].iso == iso ==> entries[j].wordlist.Len() < entries[k].wordlist.Len())
  }

  /**
   * The word list stored for `iso` is that of the last entry with the most
   * concepts among the entries for `iso`.
   */
  lemma {:induction false} FoldKeepsLastLongest(entries: seq<Entry>, iso: string)
    requires iso in Fold(entries)
    ensures exists k: nat :: IsWinner(entries, iso, k) && Fold(entries)[iso] == entries[k].wordlist
  {
    var n := |entries| - 1;
    var init, entry := entries[..n], entries[n];
    if iso !in Fold(init) {
      FoldKeys(init);
      forall j | 0 <= j < n
        ensures entries[j].iso != iso
      {
        assert init[j] == entries[j];
      }
      WinnerFirst(entries, iso);
    } else {
      FoldKeepsLastLongest(init, iso);
      var k: nat :| IsWinner(init, iso, k) && Fold(init)[iso] == init[k].wordlist;
      assert init[k] == entries[k];
      if entry.iso != iso || entry.wordlist.Len() < Fold(init)[iso].Len() {
        WinnerStays(entries, iso, k);
      } else {
        WinnerReplaced(entries, iso, k);
      }
    }
  }

  /** The first entry for `iso` wins among the entries so far. */
  lemma WinnerFirst(entries: seq<Entry>, iso: string)
    requires |entries| > 0 && entries[|entries| - 1].iso == iso
    requires forall j :: 0 <= j < |entries| - 1 ==> entries[j].iso != iso
    ensures IsWinner(entries, iso, |entries| - 1)
  {
  }

  /** A new entry for another ISO code, or with fewer concepts, leaves the winner in place. */
  lemma WinnerStays(entries: seq<Entry>, iso: string, k: nat)
    requires |entries| > 0 && IsWinner(entries[..|entries| - 1], iso, k)
    requires entries[|entries| - 1].iso != iso || entries[|entries| - 1].wordlist.Len() < entries[k].wordlist.Len()
    ensures IsWinner(entries, iso, k)
  {
    var n := |entries| - 1;
    assert forall j :: 0 <= j < n ==> entries[..n][j] == entries[j];
  }

  /** A new entry for `iso` with at least as many concepts becomes the winner. */
  lemma WinnerReplaced(entries: seq<Entry>, iso: string, k: nat)
    requires |entries| > 0 && IsWinner(entries[..|entries| - 1], iso, k)
    requires entries[|entries| - 1].iso == iso && entries[|entries| - 1].wordlist.Len() >= entries[k].wordlist.Len()
    ensures IsWinner(entries, iso, |entries| - 1)
  {
    var n := |entries| - 1;
    assert forall j :: 0 <= j < n ==> entries[..n][j] == entries[j];
  }

  /** A collection of word lists, keyed by ISO 639-3 code. */
  class Registry {
    var languageWordlist: map<string, Wordlist>

    /** Every stored word list has at least one form per concept. */
    ghost predicate Valid()
      reads this
    {
      forall iso :: iso in languageWordlist ==> WellFormed(languageWordlist[iso])
    }

    /** Loads the rows in order, keeping per ISO code the word list with the most concepts. */
    constructor (rows: seq<Row>)
      ensures languageWordlist == Fold(LoadAll(rows))
      ensures Valid()
    {
      languageWordlist := map[];
      new;
      ghost var entries := LoadAll(rows);
      for i := 0 to |rows|
        invariant languageWordlist == Fold(entries[..i])
      {
        var row := rows[i];
        var wordlist := Wordlist(RowConcepts(row));
        if row.iso in languageWordlist {
          var oldWordlist := languageWordlist[row.iso];
          if wordlist.Len() < oldWordlist.Len() {
            wordlist := oldWordlist;
          }
        }
        FoldStep(entries, i);
        MergeStep(languageWordlist, entries[i], wordlist);
        languageWordlist := languageWordlist[row.iso := wordlist];
      }
      assert entries[..|rows|] == entries;
      FoldWellFormed(entries);
    }

    /** `__getitem__`: the word list for `iso`, or a `KeyError` when there is none. */
    function Get(iso: string): (r: Result<Wordlist>)
      reads this
      ensures r.Ok? <==> iso in languageWordlist
      ensures r.Ok? ==> r.value == languageWordlist[iso]
      ensures r.Err? ==> r.error == KeyError(iso)
      ensures Valid() && r.Ok? ==> WellFormed(r.value)
    {
      if iso in languageWordlist then Ok(languageWordlist[iso]) else Err(KeyError(iso))
    }
  }
}
