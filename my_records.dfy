/** The "My Records" page: loading the store and the case-insensitive search filter. */
module Records {
  import opened Wrappers
  import opened Text
  import opened Storage

  /** An optional field matches the lower-cased term; an absent field never does. */
  predicate FieldMatches(field: Option<string>, loweredTerm: string) {
    field.Some? && Contains(Lower(field.value), loweredTerm)
  }

  /** The filter predicate: title, doctor, details or file name contains the (untrimmed) term. */
  predicate RecordMatches(r: MedicalRecord, term: string)
    ensures term == "" ==> RecordMatches(r, term)
    ensures r.doctor.None? && r.details.None? && r.fileName.None? ==>
      (RecordMatches(r, term) <==> Contains(Lower(r.title), Lower(term)))
  {
    var t := Lower(term);
    Contains(Lower(r.title), t) || FieldMatches(r.doctor, t) || FieldMatches(r.details, t)
    || FieldMatches(r.fileName, t)
  }

  /** `records.filter(...)`. */
  function FilterRecords(rs: seq<MedicalRecord>, term: string): (r: seq<MedicalRecord>)
    ensures |r| <= |rs|
    ensures forall x :: x in r ==> x in rs && RecordMatches(x, term)
    ensures forall x :: x in rs && RecordMatches(x, term) ==> x in r
  {
    if rs == [] then []
    else if RecordMatches(rs[0], term) then [rs[0]] + FilterRecords(rs[1..], term)
    else FilterRecords(rs[1..], term)
  }

  /** The match is case-insensitive in the term: lower-casing it first changes nothing. */
  lemma MatchIgnoresTermCase(r: MedicalRecord, term: string)
    ensures RecordMatches(r, term) == RecordMatches(r, Lower(term))
  {
    LowerIdempotent(term);
  }

  /** The search effect: a blank term shows every record, otherwise the filtered ones. */
  function Search(rs: seq<MedicalRecord>, term: string): (r: seq<MedicalRecord>)
    ensures |r| <= |rs|
    ensures Trim(term) == "" ==> r == rs
    ensures Trim(term) != "" ==> forall x :: x in r <==> x in rs && RecordMatches(x, term)
  {
    if Trim(term) == "" then rs else FilterRecords(rs, term)
  }

  /** `idx` picks `xs` out of `ys` at strictly increasing positions. */
  ghost predicate SubsequenceAt(xs: seq<MedicalRecord>, ys: seq<MedicalRecord>, idx: seq<nat>) {
    && |idx| == |xs|
    && (forall i :: 0 <= i < |idx| ==> idx[i] < |ys| && xs[i] == ys[idx[i]])
    && (forall i, j :: 0 <= i < j < |idx| ==> idx[i] < idx[j])
  }

  function Shift(idx: seq<nat>): (r: seq<nat>)
    ensures |r| == |idx| && forall i :: 0 <= i < |idx| ==> r[i] == idx[i] + 1
  {
    seq(|idx|, i requires 0 <= i < |idx| => idx[i] + 1)
  }

  /** Shifting moves every position one further on, so 0 is never among them. */
  lemma ShiftMembers(rest: seq<nat>)
    ensures forall k :: 1 <= k ==> (k in Shift(rest) <==> k - 1 in rest)
    ensures 0 !in Shift(rest)
  {
    var sh := Shift(rest);
    forall k | 1 <= k ensures k in sh <==> k - 1 in rest {
      if k in sh {
        var i :| 0 <= i < |sh| && sh[i] == k;
        assert rest[i] == k - 1;
      }
      if k - 1 in rest {
        var i :| 0 <= i < |rest| && rest[i] == k - 1;
        assert sh[i] == k;
      }
    }
  }

  /** A selection from `ys[1..]` is a selection from `ys`, one position further on. */
  lemma ShiftSelection(xs: seq<MedicalRecord>, ys: seq<MedicalRecord>, rest: seq<nat>)
    requires |ys| > 0 && SubsequenceAt(xs, ys[1..], rest)
    ensures SubsequenceAt(xs, ys, Shift(rest))
    ensures forall k :: 1 <= k < |ys| ==> (k in Shift(rest) <==> k - 1 in rest)
    ensures 0 !in Shift(rest)
  {
    var sh := Shift(rest);
    forall i | 0 <= i < |sh| ensures sh[i] < |ys| && xs[i] == ys[sh[i]] {
      assert ys[1..][rest[i]] == ys[rest[i] + 1];
    }
    ShiftMembers(rest);
  }

  /** Putting the head of `ys` in front of a selection from `ys[1..]`. */
  lemma ConsSelection(xs: seq<MedicalRecord>, ys: seq<MedicalRecord>, rest: seq<nat>)
    requires |ys| > 0 && SubsequenceAt(xs, ys[1..], rest)
    ensures SubsequenceAt([ys[0]] + xs, ys, [0] + Shift(rest))
    ensures forall k :: 1 <= k < |ys| ==> (k in [0] + Shift(rest) <==> k - 1 in rest)
    ensures 0 in [0] + Shift(rest)
  {
    ShiftSelection(xs, ys, rest);
    var sh := Shift(rest);
    var idx := [0] + sh;
    var zs := [ys[0]] + xs;
    forall i | 0 <= i < |idx| ensures idx[i] < |ys| && zs[i] == ys[idx[i]] {
      if i > 0 { assert idx[i] == sh[i - 1] && zs[i] == xs[i - 1]; }
    }
    forall i, j | 0 <= i < j < |idx| ensures idx[i] < idx[j] {
      if i > 0 { assert idx[i] == sh[i - 1] && idx[j] == sh[j - 1]; }
      else { assert idx[j] == sh[j - 1]; }
    }
    forall k | 1 <= k < |ys| ensures k in idx <==> k - 1 in rest {
      assert k in idx <==> k in sh;
    }
  }

  /**
   * The filter keeps exactly the matching records, in their original order:
   * the result sits in `rs` at increasing positions `idx`, and a position of
   * `rs` is among `idx` exactly when its record matches.
   */
  lemma {:induction false} FilterIsOrderedSelection(rs: seq<MedicalRecord>, term: string) returns (idx: seq<nat>)
    ensures SubsequenceAt(FilterRecords(rs, term), rs, idx)
    ensures forall k :: 0 <= k < |rs| ==> (k in idx <==> RecordMatches(rs[k], term))
  {
    if rs == [] {
      idx := [];
    } else {
      var rest := FilterIsOrderedSelection(rs[1..], term);
      var ft := FilterRecords(rs[1..], term);
      if RecordMatches(rs[0], term) {
        ConsSelection(ft, rs, rest);
        idx := [0] + Shift(rest);
      } else {
        ShiftSelection(ft, rs, rest);
        idx := Shift(rest);
      }
      forall k | 1 <= k < |rs| ensures k in idx <==> RecordMatches(rs[k], term) {
        assert rs[k] == rs[1..][k - 1];
      }
    }
  }

  /** Searching the result again with the same term changes nothing. */
  lemma {:induction false} FilterIdempotent(rs: seq<MedicalRecord>, term: string)
    ensures FilterRecords(FilterRecords(rs, term), term) == FilterRecords(rs, term)
  {
    if rs != [] {
      FilterIdempotent(rs[1..], term);
      if RecordMatches(rs[0], term) {
        var f := [rs[0]] + FilterRecords(rs[1..], term);
        assert f[0] == rs[0] && f[1..] == FilterRecords(rs[1..], term);
      }
    }
  }

  /** A blank or white-space-only term leaves the list exactly as it is. */
  lemma SearchBlankIsIdentity(rs: seq<MedicalRecord>, term: string)
    requires IsBlank(term)
    ensures Search(rs, term) == rs
  {
    TrimEmptyIffBlank(term);
  }

  lemma SearchIdempotent(rs: seq<MedicalRecord>, term: string)
    ensures Search(Search(rs, term), term) == Search(rs, term)
  {
    FilterIdempotent(rs, term);
  }

  class MyRecordsPage {
    var records: seq<MedicalRecord>
    var searchTerm: string
    var filteredRecords: seq<MedicalRecord>

    ghost predicate Valid()
      reads this
    {
      filteredRecords == Search(records, searchTerm)
    }

    constructor ()
      ensures Valid() && records == [] && searchTerm == "" && filteredRecords == []
    {
      records := [];
      searchTerm := "";
      filteredRecords := [];
    }

    /** The load effect (a stored list replaces `records` and `filteredRecords`), then the search effect. */
    method Load(store: LocalStorage)
      modifies this
      ensures records == GetRecords(store.items).GetOr(old(records))
      ensures searchTerm == old(searchTerm) && Valid()
      ensures IsBlank(searchTerm) ==> filteredRecords == records
    {
      var saved := GetRecords(store.items);
      if saved.Some? {
        records := saved.value;
        filteredRecords := saved.value;
      }
      RefreshFilter();
      if IsBlank(searchTerm) {
        SearchBlankIsIdentity(records, searchTerm);
      }
    }

    /** Typing into the search box, then the search effect. */
    method SetSearchTerm(term: string)
      modifies this
      ensures searchTerm == term && records == old(records) && Valid()
    {
      searchTerm := term;
      RefreshFilter();
    }

    /** The search effect; it never changes `records`. */
    method RefreshFilter()
      modifies this`filteredRecords
      ensures Valid()
    {
      if Trim(searchTerm) == "" {
        filteredRecords := records;
      } else {
        filteredRecords := FilterRecords(records, searchTerm);
      }
    }
  }
}
