/**
 * Translations added to a list of rows: one query for a whole chunk of ids, one pass over what it
 * finds, and each row ends with exactly what it would have been given alone.
 */
module ContentTranslations {
  import opened Wrappers

  type Id = string
  type Text = string

  /** A stored translation: of a field of a row, and of one entry of it when it has a subkey. */
  datatype Translation = Translation(organisation: Id, table: string, row: Id, field: string, subkey: string,
                                     language: string, text: Text, sourcehash: string)

  /** `field` or `field.subkey`: no field has a dot in it. */
  datatype Key = Key(field: string, subkey: string)

  type Texts = map<string, map<Key, Text>>

  /**
   * The columns of a table as a translation sees them: the fields that may be translated, the base
   * text a row carries, the fields an answer is graded by, and the hash and language helpers.
   */
  datatype Columns<!C> = Columns(allowed: set<string>, baseText: (C, string, string) -> Option<Text>,
                                 answerBearing: (C, string) -> bool, sourceHash: Text -> string, normalise: string -> string)

  /** Whose translations are read, of which table; the language its columns are in, if it has one. */
  datatype Reader = Reader(organisation: Id, table: string, base: Option<string>)

  // ---- one row alone --------------------------------------------------------------------------------------------

  /** May translations of this field be served in this language at all? */
  predicate Servable<C>(k: Columns<C>, r: Reader, t: Translation) {
    t.field in k.allowed && r.base != Some(k.normalise(t.language))
  }

  /** Is it made from the text the row carries now, and no answer's? */
  predicate Current<C>(k: Columns<C>, cells: C, t: Translation) {
    && k.baseText(cells, t.field, t.subkey).Some?
    && k.sourceHash(k.baseText(cells, t.field, t.subkey).value) == t.sourcehash
    && !k.answerBearing(cells, t.field)
  }

  predicate Serves<C>(k: Columns<C>, r: Reader, cells: C, t: Translation) {
    Servable(k, r, t) && Current(k, cells, t)
  }

  function Put<C>(k: Columns<C>, texts: Texts, t: Translation): Texts {
    var language := k.normalise(t.language);
    texts[language := (if language in texts then texts[language] else map[])[Key(t.field, t.subkey) := t.text]]
  }

  function Step<C>(k: Columns<C>, r: Reader, cells: C, texts: Texts, t: Translation): Texts {
    if Serves(k, r, cells, t) then Put(k, texts, t) else texts
  }

  function Served<C>(k: Columns<C>, r: Reader, cells: C, ts: seq<Translation>): Texts {
    if ts == [] then map[]
    else Step(k, r, cells, Served(k, r, cells, ts[..|ts| - 1]), ts[|ts| - 1])
  }

  predicate IsOf(t: Translation, r: Reader, ids: set<Id>) {
    t.organisation == r.organisation && t.table == r.table && t.row in ids
  }

  /** The query: the organisation's translations of these rows, in the order of the table's sort. */
  function Query(stored: seq<Translation>, r: Reader, ids: set<Id>): seq<Translation> {
    if stored == [] then []
    else
      var (before, last) := (stored[..|stored| - 1], stored[|stored| - 1]);
      Query(before, r, ids) + if IsOf(last, r, ids) then [last] else []
  }

  /** What a row alone is given. */
  function TextsOf<C>(k: Columns<C>, r: Reader, stored: seq<Translation>, id: Option<Id>, cells: C): Texts {
    if id.None? then map[] else Served(k, r, cells, Query(stored, r, {id.value}))
  }

  // ---- what that is -----------------------------------------------------------------------------------------------

  predicate Holds(texts: Texts, language: string, key: Key, text: Text) {
    language in texts && key in texts[language] && texts[language][key] == text
  }

  /** A stored translation that this row is to be served, in this language under this key. */
  predicate Fits<C>(k: Columns<C>, r: Reader, id: Id, cells: C, t: Translation, language: string, key: Key) {
    IsOf(t, r, {id}) && Serves(k, r, cells, t) && k.normalise(t.language) == language && Key(t.field, t.subkey) == key
  }

  /** Translation `i` is the last that fits, the one that stays, and has this text. */
  predicate Stays<C>(k: Columns<C>, r: Reader, stored: seq<Translation>, id: Id, cells: C, i: int,
                     language: string, key: Key, text: Text) {
    && 0 <= i < |stored| && Fits(k, r, id, cells, stored[i], language, key) && stored[i].text == text
    && forall j :: i < j < |stored| ==> !Fits(k, r, id, cells, stored[j], language, key)
  }

  lemma {:induction false} QueryOneMore(stored: seq<Translation>, r: Reader, ids: set<Id>, t: Translation)
    ensures Query(stored + [t], r, ids) == Query(stored, r, ids) + if IsOf(t, r, ids) then [t] else []
  {
    assert (stored + [t])[..|stored|] == stored;
  }

  lemma {:induction false} ServedOneMore<C>(k: Columns<C>, r: Reader, cells: C, ts: seq<Translation>, t: Translation)
    ensures Served(k, r, cells, ts + [t]) == Step(k, r, cells, Served(k, r, cells, ts), t)
  {
    assert (ts + [t])[..|ts|] == ts;
  }

  lemma {:induction false} OneMoreServed<C>(k: Columns<C>, r: Reader, stored: seq<Translation>, id: Id, cells: C,
                                            t: Translation, language: string, key: Key, text: Text)
    ensures Holds(TextsOf(k, r, stored + [t], Some(id), cells), language, key, text)
      <==> if Fits(k, r, id, cells, t, language, key) then t.text == text
           else Holds(TextsOf(k, r, stored, Some(id), cells), language, key, text)
  {
    var own := Query(stored, r, {id});
    QueryOneMore(stored, r, {id}, t);
    if IsOf(t, r, {id}) {
      ServedOneMore(k, r, cells, own, t);
    } else {
      assert Query(stored + [t], r, {id}) == own;
    }
  }

  /**
   * A row is given a text exactly when it is that of the last stored translation that is its
   * organisation's, of this row and a field open to translation, in another language than the
   * columns', made from the text the row carries now, and bears no answer.
   */
  lemma {:induction false} ServedExactly<C>(k: Columns<C>, r: Reader, stored: seq<Translation>, id: Id, cells: C,
                                            language: string, key: Key, text: Text)
    ensures Holds(TextsOf(k, r, stored, Some(id), cells), language, key, text)
      <==> exists i :: Stays(k, r, stored, id, cells, i, language, key, text)
  {
    if stored != [] {
      var before, last := stored[..|stored| - 1], stored[|stored| - 1];
      ServedExactly(k, r, before, id, cells, language, key, text);
      assert stored == before + [last];
      OneMoreServed(k, r, before, id, cells, last, language, key, text);
      if Fits(k, r, id, cells, last, language, key) {
        assert Stays(k, r, stored, id, cells, |before|, language, key, last.text);
      } else {
        forall i
          ensures Stays(k, r, before, id, cells, i, language, key, text) <==> Stays(k, r, stored, id, cells, i, language, key, text)
        {
          assert forall j :: 0 <= j < |before| ==> before[j] == stored[j];
        }
      }
    }
  }

  /**
   * The conditions of the source one by one: what is served of a row is read from its columns and
   * the stored translations alone.
   */
  ghost predicate FitsRow<C>(k: Columns<C>, r: Reader, id: Id, cells: C, t: Translation, language: string, key: Key) {
    && t.organisation == r.organisation
    && t.table == r.table
    && t.row == id
    && t.field in k.allowed
    && k.normalise(t.language) == language
    && (r.base.Some? ==> language != r.base.value)
    && k.baseText(cells, t.field, t.subkey).Some?
    && t.sourcehash == k.sourceHash(k.baseText(cells, t.field, t.subkey).value)
    && !k.answerBearing(cells, t.field)
    && key == Key(t.field, t.subkey)
  }

  ghost predicate LastFits<C>(k: Columns<C>, r: Reader, stored: seq<Translation>, id: Id, cells: C, i: int,
                              language: string, key: Key) {
    && 0 <= i < |stored| && FitsRow(k, r, id, cells, stored[i], language, key)
    && forall j :: i < j < |stored| ==> !FitsRow(k, r, id, cells, stored[j], language, key)
  }

  /**
   * A row is given a text exactly when it is that of the last translation of the reader's own
   * organisation, of this table, row and open field, in another language than the base, made from
   * the text the row carries now, of a field no answer is graded by.
   */
  lemma {:induction false} ServedByItsConditions<C>(k: Columns<C>, r: Reader, stored: seq<Translation>, id: Id, cells: C,
                                                    language: string, key: Key, text: Text)
    ensures Holds(TextsOf(k, r, stored, Some(id), cells), language, key, text)
      <==> exists i :: LastFits(k, r, stored, id, cells, i, language, key) && stored[i].text == text
  {
    ServedExactly(k, r, stored, id, cells, language, key, text);
    forall t: Translation
      ensures FitsRow(k, r, id, cells, t, language, key) <==> Fits(k, r, id, cells, t, language, key)
    {
    }
    forall i
      ensures Stays(k, r, stored, id, cells, i, language, key, text)
        <==> LastFits(k, r, stored, id, cells, i, language, key) && stored[i].text == text
    {
    }
  }

  // ---- a chunk and what is found of one row -----------------------------------------------------------------------

  function OfRow(ts: seq<Translation>, id: Id): seq<Translation> {
    if ts == [] then []
    else OfRow(ts[..|ts| - 1], id) + if ts[|ts| - 1].row == id then [ts[|ts| - 1]] else []
  }

  lemma {:induction false} OfRowOneMore(ts: seq<Translation>, t: Translation, id: Id)
    ensures OfRow(ts + [t], id) == OfRow(ts, id) + if t.row == id then [t] else []
  {
    assert (ts + [t])[..|ts|] == ts;
  }

  lemma {:induction false} OfRowSplits(ts: seq<Translation>, us: seq<Translation>, id: Id)
    ensures OfRow(ts + us, id) == OfRow(ts, id) + OfRow(us, id)
  {
    if us == [] {
      assert ts + us == ts;
    } else {
      assert ts + us == (ts + us[..|us| - 1]) + [us[|us| - 1]];
      OfRowSplits(ts, us[..|us| - 1], id);
      OfRowOneMore(ts + us[..|us| - 1], us[|us| - 1], id);
    }
  }

  /** Of a chunk's query, a row's own part is its own query. */
  lemma {:induction false} QueryOfRow(stored: seq<Translation>, r: Reader, ids: set<Id>, id: Id)
    ensures OfRow(Query(stored, r, ids), id) == if id in ids then Query(stored, r, {id}) else []
  {
    if stored != [] {
      var before, last := stored[..|stored| - 1], stored[|stored| - 1];
      QueryOfRow(before, r, ids, id);
      var found, own := Query(before, r, ids), Query(before, r, {id});
      assert Query(stored, r, ids) == if IsOf(last, r, ids) then found + [last] else found;
      assert Query(stored, r, {id}) == if IsOf(last, r, {id}) then own + [last] else own;
      OfRowOneMore(found, last, id);
    }
  }

  // ---- the loops --------------------------------------------------------------------------------------------------

  /** A row of a response, which the translations are written onto. */
  class ContentRow<C> {
    const id: Option<Id>
    const cells: C
    var translations: Texts

    constructor (id: Option<Id>, cells: C)
      ensures this.id == id && this.cells == cells && translations == map[]
    {
      this.id, this.cells, translations := id, cells, map[];
    }
  }

  /** The rows of each id; the same row may be listed twice. */
  ghost predicate Grouped<C>(byId: map<Id, seq<ContentRow<C>>>, list: seq<ContentRow<C>>) {
    && (forall row :: row in list && row.id.Some? ==> row.id.value in byId && row in byId[row.id.value])
    && (forall id, row :: id in byId && row in byId[id] ==> row in list && row.id == Some(id))
  }

  method GroupById<C>(list: seq<ContentRow<C>>) returns (byId: map<Id, seq<ContentRow<C>>>)
    ensures Grouped(byId, list)
    ensures forall id :: id in byId <==> exists i :: 0 <= i < |list| && list[i].id == Some(id)
  {
    byId := map[];
    for i := 0 to |list|
      invariant Grouped(byId, list[..i])
      invariant forall id :: id in byId <==> exists j :: 0 <= j < i && list[j].id == Some(id)
    {
      var row := list[i];
      assert list[..i + 1] == list[..i] + [row];
      if row.id.Some? {
        var id := row.id.value;
        byId := byId[id := (if id in byId then byId[id] else []) + [row]];
      }
    }
    assert list[..|list|] == list;
  }

  /** Some of the ids still to go: a chunk of any size. */
  method NextChunk(rest: set<Id>) returns (part: set<Id>)
    requires rest != {}
    ensures part != {} && part <= rest
  {
    var id :| id in rest;
    var more :| more <= rest;
    part := {id} + more;
  }

  /** The queries, chunk by chunk: however the ids fall into chunks, each row's own are found, once and in order. */
  method FindAll(stored: seq<Translation>, r: Reader, ids: set<Id>) returns (found: seq<Translation>)
    ensures forall id :: id in ids ==> OfRow(found, id) == Query(stored, r, {id})
    ensures forall id :: id !in ids ==> OfRow(found, id) == []
  {
    found := [];
    var rest := ids;
    while rest != {}
      invariant rest <= ids
      invariant forall id :: OfRow(found, id) == if id in ids && id !in rest then Query(stored, r, {id}) else []
      decreases rest
    {
      var part := NextChunk(rest);
      var more := Query(stored, r, part);
      forall id ensures OfRow(found + more, id) == if id in ids && id !in rest - part then Query(stored, r, {id}) else [] {
        OfRowSplits(found, more, id);
        QueryOfRow(stored, r, part, id);
      }
      found, rest := found + more, rest - part;
    }
  }

  function RowTexts<C>(k: Columns<C>, r: Reader, ts: seq<Translation>, row: ContentRow<C>): Texts {
    if row.id.None? then map[] else Served(k, r, row.cells, OfRow(ts, row.id.value))
  }

  /** One found translation goes to every row of its id, and a row listed twice gets it twice: that is once. */
  method AddFound<C>(k: Columns<C>, r: Reader, t: Translation, rows: seq<ContentRow<C>>, texts: map<ContentRow<C>, Texts>)
    returns (next: map<ContentRow<C>, Texts>)
    requires forall row :: row in rows ==> row in texts
    ensures next.Keys == texts.Keys
    ensures forall row :: row in texts ==> next[row] == if row in rows then Step(k, r, row.cells, texts[row], t) else texts[row]
  {
    next := texts;
    if !Servable(k, r, t) {
      return;
    }
    for i := 0 to |rows|
      invariant next.Keys == texts.Keys
      invariant forall row :: row in texts ==> next[row] == if row in rows[..i] then Step(k, r, row.cells, texts[row], t) else texts[row]
    {
      var row := rows[i];
      assert rows[..i + 1] == rows[..i] + [row];
      PutTwice(k, texts[row], t);
      if Current(k, row.cells, t) {
        next := next[row := Put(k, next[row], t)];
      }
    }
    assert rows[..|rows|] == rows;
  }

  lemma {:induction false} PutTwice<C>(k: Columns<C>, texts: Texts, t: Translation)
    ensures Put(k, Put(k, texts, t), t) == Put(k, texts, t)
  {
    var language, key := k.normalise(t.language), Key(t.field, t.subkey);
    var own := (if language in texts then texts[language] else map[])[key := t.text];
    assert own[key := t.text] == own;
    assert texts[language := own][language := own] == texts[language := own];
  }

  /** Goes through what was found, once, for all rows together. */
  method Collect<C>(k: Columns<C>, r: Reader, list: seq<ContentRow<C>>, byId: map<Id, seq<ContentRow<C>>>, found: seq<Translation>)
    returns (texts: map<ContentRow<C>, Texts>)
    requires Grouped(byId, list)
    ensures forall row :: row in list ==> row in texts && texts[row] == RowTexts(k, r, found, row)
  {
    texts := map row | row in list :: map[];
    for i := 0 to |found|
      invariant texts.Keys == set row | row in list
      invariant forall row :: row in list ==> texts[row] == RowTexts(k, r, found[..i], row)
    {
      var t := found[i];
      var rows := if t.row in byId then byId[t.row] else [];
      var next := AddFound(k, r, t, rows, texts);
      assert forall row :: row in list ==> (row in rows <==> row.id == Some(t.row));
      assert found[..i + 1] == found[..i] + [t];
      forall row | row in list ensures next[row] == RowTexts(k, r, found[..i + 1], row) {
        if row.id.Some? {
          var own := OfRow(found[..i], row.id.value);
          OfRowOneMore(found[..i], t, row.id.value);
          assert OfRow(found[..i + 1], row.id.value) == if row in rows then own + [t] else own;
          ServedOneMore(k, r, row.cells, own, t);
        }
      }
      texts := next;
    }
    assert found[..|found|] == found;
  }

  /**
   * Writes onto each row, in place, exactly what it would have been given alone, whatever other
   * rows are listed with it, however often, and however the ids fall into queries.
   */
  method Decorate<C>(k: Columns<C>, r: Reader, stored: seq<Translation>, list: seq<ContentRow<C>>)
    modifies set row | row in list
    ensures forall row :: row in list ==> row.translations == TextsOf(k, r, stored, row.id, row.cells)
  {
    var byId := GroupById(list);
    var found := FindAll(stored, r, byId.Keys);
    var texts := Collect(k, r, list, byId, found);
    for i := 0 to |list|
      invariant forall j :: 0 <= j < i ==> list[j].translations == TextsOf(k, r, stored, list[j].id, list[j].cells)
    {
      var row := list[i];
      row.translations := texts[row];
    }
  }
}
