/** What of a record's fields comes back from the page it was written to. */
module ImportReads {
  import opened Options
  import opened Texts
  import opened Frontmatter
  import opened FrontmatterValues
  import opened FrontmatterPages
  import opened FrontmatterReads
  import opened ImportPlanner

  // ---------- values ----------

  predicate ItemsOnLines(items: seq<string>) {
    forall i :: 0 <= i < |items| ==> '\n' !in Trim(items[i])
  }

  /** A value comes back as sent, up to outer blanks: a text with no line end and no blank, hash and
      blank in it; a list with no newline in an item and no item that reads as a mapping. */
  predicate ValueBack(v: Flat) {
    match v
    case Scalar(s) => Survives(s)
    case List(items) => NoMapping(items) && ItemsOnLines(items)
  }

  /** Under a name the reader knows its value must come back; under any other nothing does, which is
      as good as an empty list. */
  predicate FieldBack(k: string, v: Value) {
    v.Plain? && if Usable(k) then ValueBack(v.flat) else Norm(v.flat) == []
  }

  lemma {:induction false} ScalarBack(s: string, sent: Flat)
    requires Norm(Scalar(s)) == Norm(sent)
    ensures SameValue(ReadBack(Plain(Scalar(s))), sent) <==> Survives(s)
  {
    ScalarKept(s);
    hide ReadScalar, Trim, Survives;
  }

  lemma {:induction false} ListBack(items: seq<string>, sent: Flat)
    requires Norm(List(items)) == Norm(sent)
    ensures SameValue(ReadBack(Plain(List(items))), sent) <==> NoMapping(items) && ItemsOnLines(items)
  {
    hide MappingItem, Trim, FlatText;
    if NoMapping(items) {
      forall i | 0 <= i < |items|
        ensures Trim(FlatTexts(items)[i]) == Trim(items[i]) <==> '\n' !in Trim(items[i])
      {
        FlatFacts(items[i]);
        FlatOfTrim(items[i]);
      }
      var back := TrimAll(FlatTexts(items));
      if ItemsOnLines(items) {
        assert back == TrimAll(items);
      } else {
        var i :| 0 <= i < |items| && '\n' in Trim(items[i]);
        assert back[i] != TrimAll(items)[i];
      }
    }
  }

  /** A field comes back as sent exactly when its value does. */
  lemma {:induction false} FieldReads(k: string, v: Value, sent: Flat)
    requires SameValue(Some(v), sent)
    ensures SameValue(Back(k, Some(v)), sent) <==> FieldBack(k, v)
  {
    hide Usable, Survives, NoMapping, ItemsOnLines, Norm, ReadBack;
    NormOf(v);
    if Usable(k) {
      match v.flat
      case Scalar(s) => ScalarBack(s, sent); ScalarAbsent(s, sent);
      case List(items) => ListBack(items, sent); ListPresent(items);
    }
  }

  lemma NormOf(v: Value)
    ensures forall sent :: SameValue(Some(v), sent) ==> v.Plain? && Norm(v.flat) == Norm(sent)
    ensures forall sent :: SameValue(None, sent) <==> Norm(sent) == []
  {
  }

  lemma ScalarAbsent(s: string, sent: Flat)
    requires Norm(Scalar(s)) == Norm(sent)
    ensures ReadBack(Plain(Scalar(s))).None? ==> !SameValue(None, sent)
  {
  }

  lemma ListPresent(items: seq<string>)
    ensures ReadBack(Plain(List(items))).Some?
  {
  }

  // ---------- pages ----------

  /** Every field the record sends and the page holds comes back. */
  predicate FieldsBack(fm: Front, fields: Ordered<Flat>, owned: seq<string>) {
    forall k :: k in owned && k in fields.at && k in fm.at ==> FieldBack(k, fm.at[k])
  }

  /** What the same record moves again, once its page is read. */
  function MovedAgain(fm: Front, fields: Ordered<Flat>, owned: seq<string>): set<string> {
    set k | k in owned && k in fields.at && k in fm.at && !FieldBack(k, fm.at[k])
  }

  /** A MERGE SETTLES up to what does not come back: on a page that holds what a record merged into
      it, written and read again, the record moves exactly the fields whose values do not
      come back as sent. */
  lemma {:induction false} MergeSettles(fm: Front, page: Page, fields: Ordered<Flat>, owned: seq<string>)
    requires TameFront(page.fm)
    requires forall k :: k in owned && k in fields.at ==> Get(page.fm, k) == Get(Merged(fm, fields, owned), k)
    ensures Moved(Reread(page).fm, fields, owned) == MovedAgain(page.fm, fields, owned)
    ensures MovedAgain(page.fm, fields, owned) == {} <==> FieldsBack(page.fm, fields, owned)
  {
    hide Reread, TameFront, FieldBack, SameValue, Back;
    forall k | k in owned && k in fields.at
      ensures SameValue(Get(Reread(page).fm, k), fields.at[k]) <==> (k in page.fm.at ==> FieldBack(k, page.fm.at[k]))
    {
      MergeHolds(fm, fields, owned, k);
      RereadAt(page, k);
      if k in page.fm.at { FieldReads(k, page.fm.at[k], fields.at[k]); } else { NoneBack(k); }
    }
    var moved, again := Moved(Reread(page).fm, fields, owned), MovedAgain(page.fm, fields, owned);
    if again == {} {
      forall k | k in owned && k in fields.at && k in page.fm.at ensures FieldBack(k, page.fm.at[k]) { assert k !in again; }
    }
  }

  lemma NoneBack(k: string)
    ensures Back(k, None) == None
  {
  }

  lemma MergeHolds(fm: Front, fields: Ordered<Flat>, owned: seq<string>, k: string)
    requires k in owned && k in fields.at
    ensures SameValue(Get(Merged(fm, fields, owned), k), fields.at[k])
  {
    MergedAt(fm, fields, owned, k);
    hide Merged, Norm;
    assert SameValue(Some(Plain(fields.at[k])), fields.at[k]);
  }

  /** A name the reader does not know is in no page that was read. */
  lemma {:induction false} NeverRead(md: string, k: string, sent: Flat)
    requires !Usable(k) && Norm(sent) != []
    ensures !SameValue(Get(ReadPage(md).fm, k), sent)
  {
    hide ReadPage, Usable, Norm;
    ReadPageParsed(md);
  }
}
