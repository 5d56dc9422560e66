/** Field extraction (`RobustCrawler.extract_data`): for every configured
    field, the first selector, in list order, whose match has non-empty text
    wins; a field nothing matched holds "N/A"; a page on which no field
    matched yields no record at all. */
module Extraction {
  import opened Web

  type Field = string

  /** The selector ruleset: field names with their selectors, in the order the
      configuration declares them (the order of a Python dict). */
  type Rules = seq<(Field, seq<Selector>)>

  /** A record is a Python dict: its entries in insertion order, keys unique. */
  type Record = seq<(string, string)>

  const NotFound: string := "N/A"

  const UrlKey: string := "url"

  // ---------------------------------------------------------------------------
  // Records as Python dicts

  function Keys(d: Record): set<string> {
    if d == [] then {} else {d[0].0} + Keys(d[1..])
  }

  /** `d[k]`, or None when `k` is not a key. */
  function Lookup(d: Record, k: string): Option<string> {
    if d == [] then None
    else if d[0].0 == k then Some(d[0].1)
    else Lookup(d[1..], k)
  }

  /** `d[k] = v`: an existing key keeps its position and takes the new value,
      a new key goes at the end. */
  function Put(d: Record, k: string, v: string): (r: Record)
    ensures Keys(r) == Keys(d) + {k}
    ensures Lookup(r, k) == Some(v)
    ensures forall k' :: k' != k ==> Lookup(r, k') == Lookup(d, k')
    ensures k !in Keys(d) ==> r == d + [(k, v)]
    ensures k in Keys(d) ==> |r| == |d| && forall i :: 0 <= i < |d| ==> r[i].0 == d[i].0
  {
    if d == [] then [(k, v)]
    else if d[0].0 == k then [(k, v)] + d[1..]
    else
      var r := [d[0]] + Put(d[1..], k, v);
      assert r[1..] == Put(d[1..], k, v);
      r
  }

  /** Writing a key that was just added replaces its value in place. */
  lemma {:induction false} PutAgain(d: Record, k: string, a: string, b: string)
    requires k !in Keys(d)
    ensures Put(d + [(k, a)], k, b) == d + [(k, b)]
  {
    if d != [] {
      PutAgain(d[1..], k, a, b);
      assert (d + [(k, a)])[1..] == d[1..] + [(k, a)];
    }
  }

  // ---------------------------------------------------------------------------
  // First match wins

  /** The selector matched an element whose stripped text is non-empty. */
  predicate Hit(doc: Document, sel: Selector) {
    doc(sel).Text? && doc(sel).text != ""
  }

  /** The text of the first selector that hits, if any. */
  function FirstMatch(doc: Document, sels: seq<Selector>): (r: Option<string>)
    ensures r.None? <==> forall i :: 0 <= i < |sels| ==> !Hit(doc, sels[i])
    ensures r.Some? ==>
      exists i :: 0 <= i < |sels| && Hit(doc, sels[i]) && r.value == doc(sels[i]).text
        && forall j :: 0 <= j < i ==> !Hit(doc, sels[j])
  {
    if sels == [] then None
    else if Hit(doc, sels[0]) then Some(doc(sels[0]).text)
    else
      var r := FirstMatch(doc, sels[1..]);
      assert forall i :: 0 < i < |sels| ==> sels[i] == sels[1..][i - 1];
      if r.Some? then
        var i :| 0 <= i < |sels[1..]| && Hit(doc, sels[1..][i]) && r.value == doc(sels[1..][i]).text
          && forall j :: 0 <= j < i ==> !Hit(doc, sels[1..][j]);
        assert Hit(doc, sels[i + 1]) && forall j :: 0 <= j < i + 1 ==> !Hit(doc, sels[j]);
        r
      else r
  }

  /** One pass of the outer loop: the field is first set to "N/A", then
      overwritten by the winning selector's text, if any. */
  function FillField(doc: Document, d: Record, field: Field, sels: seq<Selector>): Record {
    var d1 := Put(d, field, NotFound);
    match FirstMatch(doc, sels)
    case Some(t) => Put(d1, field, t)
    case None => d1
  }

  /** The outer loop over the fields, from a dict `d`: the filled dict and
      whether any field found text (`found_any`). */
  function FillAll(doc: Document, rules: Rules, d: Record): (Record, bool) {
    if rules == [] then (d, false)
    else
      var rest := FillAll(doc, rules[1..], FillField(doc, d, rules[0].0, rules[0].1));
      (rest.0, FirstMatch(doc, rules[0].1).Some? || rest.1)
  }

  /** `extract_data(soup, url)`. */
  function Extract(doc: Document, rules: Rules, url: Url): Option<Record> {
    var (d, found) := FillAll(doc, rules, [(UrlKey, url)]);
    if found then Some(d) else None
  }

  // ---------------------------------------------------------------------------
  // Reference definitions

  function FieldNames(rules: Rules): set<Field> {
    set i | 0 <= i < |rules| :: rules[i].0
  }

  predicate DistinctFields(rules: Rules) {
    forall i, j :: 0 <= i < j < |rules| ==> rules[i].0 != rules[j].0
  }

  /** The record's fields as the configuration lists them, each with the text
      of its first hit or "N/A". */
  function FieldValues(doc: Document, rules: Rules): Record {
    seq(|rules|, i requires 0 <= i < |rules| => (rules[i].0, FirstMatch(doc, rules[i].1).GetOr(NotFound)))
  }

  // ---------------------------------------------------------------------------
  // Properties

  lemma {:induction false} FillAllFound(doc: Document, rules: Rules, d: Record)
    ensures FillAll(doc, rules, d).1 <==> exists k :: 0 <= k < |rules| && FirstMatch(doc, rules[k].1).Some?
  {
    if rules != [] {
      FillAllFound(doc, rules[1..], FillField(doc, d, rules[0].0, rules[0].1));
      assert forall k :: 0 < k < |rules| ==> rules[k] == rules[1..][k - 1];
    }
  }

  lemma {:induction false} FillAllKeys(doc: Document, rules: Rules, d: Record)
    ensures Keys(FillAll(doc, rules, d).0) == Keys(d) + FieldNames(rules)
  {
    if rules != [] {
      var d1 := FillField(doc, d, rules[0].0, rules[0].1);
      FillAllKeys(doc, rules[1..], d1);
      assert FieldNames(rules) == {rules[0].0} + FieldNames(rules[1..]) by {
        assert forall k :: 0 < k < |rules| ==> rules[k] == rules[1..][k - 1];
        assert forall k :: 0 <= k < |rules[1..]| ==> rules[1..][k] == rules[k + 1];
      }
    }
  }

  /** The record exists exactly when some configured field found text; so an
      empty ruleset never yields a record. */
  lemma ExtractNoneIff(doc: Document, rules: Rules, url: Url)
    ensures Extract(doc, rules, url).None? <==> forall k :: 0 <= k < |rules| ==> FirstMatch(doc, rules[k].1).None?
    ensures rules == [] ==> Extract(doc, rules, url).None?
  {
    FillAllFound(doc, rules, [(UrlKey, url)]);
  }

  /** Whatever the field names, a record has the key "url" and a key for every
      configured field, and no other key. */
  lemma ExtractKeys(doc: Document, rules: Rules, url: Url)
    ensures Extract(doc, rules, url).Some? ==> Keys(Extract(doc, rules, url).value) == {UrlKey} + FieldNames(rules)
  {
    FillAllKeys(doc, rules, [(UrlKey, url)]);
    assert Keys([(UrlKey, url)]) == {UrlKey};
  }

  /** Filling a field the dict does not have yet appends it. */
  lemma FillFieldFresh(doc: Document, d: Record, f: Field, sels: seq<Selector>)
    requires f !in Keys(d)
    ensures FillField(doc, d, f, sels) == d + [(f, FirstMatch(doc, sels).GetOr(NotFound))]
  {
    PutAgain(d, f, NotFound, FirstMatch(doc, sels).GetOr(NotFound));
  }

  lemma FieldValuesCons(doc: Document, rules: Rules)
    requires rules != []
    ensures FieldValues(doc, rules)
      == [(rules[0].0, FirstMatch(doc, rules[0].1).GetOr(NotFound))] + FieldValues(doc, rules[1..])
  {
  }

  lemma {:induction false} KeysAppend(d: Record, k: string, v: string)
    ensures Keys(d + [(k, v)]) == Keys(d) + {k}
  {
    if d != [] {
      KeysAppend(d[1..], k, v);
      assert (d + [(k, v)])[1..] == d[1..] + [(k, v)];
    }
  }

  /** After the first field is appended, the remaining fields are still
      distinct and new. */
  lemma FreshRest(rules: Rules, d: Record, v: string)
    requires rules != [] && DistinctFields(rules)
    requires forall k :: 0 <= k < |rules| ==> rules[k].0 !in Keys(d)
    ensures DistinctFields(rules[1..])
    ensures forall k :: 0 <= k < |rules[1..]| ==> rules[1..][k].0 !in Keys(d + [(rules[0].0, v)])
  {
    KeysAppend(d, rules[0].0, v);
    assert forall k :: 0 <= k < |rules[1..]| ==> rules[1..][k] == rules[k + 1];
  }

  /** The outer loop's first pass over a field the dict does not have yet. */
  lemma FillAllFirst(doc: Document, rules: Rules, d: Record)
    requires rules != [] && rules[0].0 !in Keys(d)
    ensures FillAll(doc, rules, d).0
         == FillAll(doc, rules[1..], d + [(rules[0].0, FirstMatch(doc, rules[0].1).GetOr(NotFound))]).0
  {
    FillFieldFresh(doc, d, rules[0].0, rules[0].1);
  }

  lemma {:induction false} FillAllShape(doc: Document, rules: Rules, d: Record)
    requires DistinctFields(rules)
    requires forall k :: 0 <= k < |rules| ==> rules[k].0 !in Keys(d)
    ensures FillAll(doc, rules, d).0 == d + FieldValues(doc, rules)
  {
    if rules != [] {
      var entry := (rules[0].0, FirstMatch(doc, rules[0].1).GetOr(NotFound));
      calc {
        FillAll(doc, rules, d).0;
      == { FillAllFirst(doc, rules, d); }
        FillAll(doc, rules[1..], d + [entry]).0;
      == { FreshRest(rules, d, entry.1); FillAllShape(doc, rules[1..], d + [entry]); }
        (d + [entry]) + FieldValues(doc, rules[1..]);
      ==
        d + ([entry] + FieldValues(doc, rules[1..]));
      == { FieldValuesCons(doc, rules); }
        d + FieldValues(doc, rules);
      }
    }
  }

  /** With distinct field names none of which is "url", a record is the page
      URL under "url" followed by every configured field, in configuration
      order, holding its first hit or "N/A". */
  lemma ExtractShape(doc: Document, rules: Rules, url: Url)
    requires DistinctFields(rules)
    requires UrlKey !in FieldNames(rules)
    ensures Extract(doc, rules, url).Some? ==>
      Extract(doc, rules, url).value == [(UrlKey, url)] + FieldValues(doc, rules)
  {
    assert Keys([(UrlKey, url)]) == {UrlKey};
    FillAllShape(doc, rules, [(UrlKey, url)]);
  }

  /** A selector that raises, matches nothing or matches only whitespace can
      be struck from the list without changing any field's value. */
  lemma {:induction false} MissSkipped(doc: Document, sels: seq<Selector>, i: nat)
    requires i < |sels|
    requires !Hit(doc, sels[i])
    ensures FirstMatch(doc, sels) == FirstMatch(doc, sels[..i] + sels[i + 1..])
  {
    var shorter := sels[..i] + sels[i + 1..];
    if i > 0 {
      var rest := sels[1..];
      MissSkipped(doc, rest, i - 1);
      assert shorter[0] == sels[0] && shorter[1..] == rest[..i - 1] + rest[i..];
      if !Hit(doc, sels[0]) {
        FirstMatchSkip(doc, sels);
        FirstMatchSkip(doc, shorter);
      }
    } else {
      assert shorter == sels[1..];
      FirstMatchSkip(doc, sels);
    }
  }

  lemma FirstMatchSkip(doc: Document, sels: seq<Selector>)
    requires sels != [] && !Hit(doc, sels[0])
    ensures FirstMatch(doc, sels) == FirstMatch(doc, sels[1..])
  {
  }
}
