/**
 * `extractOverviewFromTranslations` (src/services/tvdb/series/utils.ts):
 * a bounded-depth walk over a nested translations structure that collects
 * overview texts, English-tagged ones apart from the others, and returns the
 * first English one, else the first other one.
 */
module Translations {
  import opened Wrappers
  import opened Text
  import opened Json
  import opened SeriesFields
  import opened Seqs

  /** A text that `handleCandidate` recorded, and whether its language was English. */
  datatype Offer = Offer(english: bool, text: string)

  /** What an overview candidate must be to be recorded at all. */
  predicate IsOverviewText(text: string) {
    text != [] && IsTrimmed(text) && !LooksLikeLanguageCode(text)
  }

  /** `a ?? b` on strings that may be null. */
  function OrElseText(a: Option<string>, b: Option<string>): Option<string> {
    if a.Some? then a else b
  }

  function TextValue(s: Option<string>): Value {
    if s.Some? then Some(JStr(s.value)) else Some(JNull)
  }

  /** The properties a translation record names its language by, in order. */
  const LanguageKeys: seq<string> := ["language", "iso639_1", "iso_639_1", "lang", "locale", "abbreviation"]

  /** The properties a translation record carries its text in, in order. */
  const TextKeys: seq<string> := ["overview", "translation", "translated", "text", "synopsis"]

  function Props(fields: seq<Field>, keys: seq<string>): (r: seq<Value>)
    ensures |r| == |keys|
  {
    if keys == [] then [] else [Get(fields, keys[0])] + Props(fields, keys[1..])
  }

  /** The text `handleCandidate` would record for `value`, if any. */
  function OverviewCandidate(value: Value): (r: Option<string>)
    ensures r.Some? ==> IsOverviewText(r.value)
  {
    var overview := CoalesceString([value]);
    if overview.None? || LooksLikeLanguageCode(overview.value) then None else overview
  }

  /** `handleCandidate(language, value)`: the text it records, if any, and where. */
  function HandleCandidate(language: Option<string>, value: Value): (r: seq<Offer>)
    ensures |r| <= 1
    ensures forall o :: o in r ==> IsOverviewText(o.text)
  {
    var overview := OverviewCandidate(value);
    if overview.None? then [] else [Offer(IsEnglish(language), overview.value)]
  }

  /** The language normalises to "eng". */
  predicate IsEnglish(language: Option<string>) {
    NormalizeLanguageCode(TextValue(language)) == Some("eng")
  }

  /**
   * The texts `explore(node, hint, depth)` records, in the order it records
   * them: falsy nodes and nodes deeper than `maxDepth` record nothing, a
   * string is a candidate in the hinted language, an array is explored entry
   * by entry, and a record offers its own text (in its own language, else the
   * hinted one) before exploring every property, a property named like a
   * language code hinting that language.
   */
  function Offers(node: Value, hint: Option<string>, depth: int, maxDepth: int): (r: seq<Offer>)
    decreases maxDepth - depth + 1, 1
  {
    if !Truthy(node) || depth > maxDepth then []
    else match node.value
      case JStr(_) => HandleCandidate(hint, node)
      case JArr(items) => ItemOffers(items, hint, depth + 1, maxDepth)
      case JObj(fields) => RecordOffers(fields, hint, depth, maxDepth)
      case _ => []
  }

  /** A record at `depth`: its own text first, then its properties one level deeper. */
  function RecordOffers(fields: seq<Field>, hint: Option<string>, depth: int, maxDepth: int): (r: seq<Offer>)
    requires depth <= maxDepth
    decreases maxDepth - depth + 1, 0
  {
    var recordLang := RecordLanguage(fields, hint);
    OwnOffers(fields, recordLang, hint) + FieldOffers(fields, recordLang, hint, depth + 1, maxDepth)
  }

  /** The language a record declares (else the hinted one), normalised. */
  function RecordLanguage(fields: seq<Field>, hint: Option<string>): Option<string> {
    NormalizeLanguageCode(TextValue(OrElseText(CoalesceString(Props(fields, LanguageKeys)), hint)))
  }

  /** The record's own text, offered in its language, else the hinted one. */
  function OwnOffers(fields: seq<Field>, recordLang: Option<string>, hint: Option<string>): (r: seq<Offer>)
  {
    var overview := CoalesceString(Props(fields, TextKeys));
    if overview.Some? then HandleCandidate(OrElseText(recordLang, hint), Some(JStr(overview.value))) else []
  }

  /** The entries of an array, each explored at `depth`. */
  function ItemOffers(items: seq<Json>, hint: Option<string>, depth: int, maxDepth: int): (r: seq<Offer>)
    decreases maxDepth - depth + 1, |items| + 1
  {
    if items == [] then []
    else Offers(Some(items[0]), hint, depth, maxDepth) + ItemOffers(items[1..], hint, depth, maxDepth)
  }

  /** The hint a record passes to the value of property `key`. */
  function NextHint(key: string, recordLang: Option<string>, hint: Option<string>): Option<string> {
    OrElseText(NormalizeLanguageCode(Some(JStr(key))), OrElseText(recordLang, hint))
  }

  /** The value of one property, explored at `depth` under the hint its name gives. */
  function PropertyOffers(field: Field, recordLang: Option<string>, hint: Option<string>, depth: int, maxDepth: int): (r: seq<Offer>)
    decreases maxDepth - depth + 1, 2
  {
    Offers(Some(field.value), NextHint(field.key, recordLang, hint), depth, maxDepth)
  }

  /** The properties of a record, each explored at `depth`. */
  function FieldOffers(fields: seq<Field>, recordLang: Option<string>, hint: Option<string>, depth: int, maxDepth: int): (r: seq<Offer>)
    decreases maxDepth - depth + 1, |fields| + 2
  {
    if fields == [] then []
    else PropertyOffers(fields[0], recordLang, hint, depth, maxDepth) + FieldOffers(fields[1..], recordLang, hint, depth, maxDepth)
  }

  /** Every text the walk offers is a trimmed, non-empty text that does not look like a language code. */
  lemma {:induction false} OffersAreOverviewTexts(node: Value, hint: Option<string>, depth: int, maxDepth: int)
    ensures forall o :: o in Offers(node, hint, depth, maxDepth) ==> IsOverviewText(o.text)
    decreases maxDepth - depth + 1, 1
  {
    if Truthy(node) && depth <= maxDepth {
      match node.value
      case JStr(_) =>
      case JArr(items) => ItemOffersAreOverviewTexts(items, hint, depth + 1, maxDepth);
      case JObj(fields) => RecordOffersAreOverviewTexts(fields, hint, depth, maxDepth);
      case _ =>
    }
  }

  lemma {:induction false} RecordOffersAreOverviewTexts(fields: seq<Field>, hint: Option<string>, depth: int, maxDepth: int)
    requires depth <= maxDepth
    ensures forall o :: o in RecordOffers(fields, hint, depth, maxDepth) ==> IsOverviewText(o.text)
    decreases maxDepth - depth + 1, 0
  {
    FieldOffersAreOverviewTexts(fields, RecordLanguage(fields, hint), hint, depth + 1, maxDepth);
  }

  lemma {:induction false} ItemOffersAreOverviewTexts(items: seq<Json>, hint: Option<string>, depth: int, maxDepth: int)
    ensures forall o :: o in ItemOffers(items, hint, depth, maxDepth) ==> IsOverviewText(o.text)
    decreases maxDepth - depth + 1, |items| + 1
  {
    if items != [] {
      OffersAreOverviewTexts(Some(items[0]), hint, depth, maxDepth);
      ItemOffersAreOverviewTexts(items[1..], hint, depth, maxDepth);
    }
  }

  lemma {:induction false} FieldOffersAreOverviewTexts(fields: seq<Field>, recordLang: Option<string>, hint: Option<string>, depth: int, maxDepth: int)
    ensures forall o :: o in FieldOffers(fields, recordLang, hint, depth, maxDepth) ==> IsOverviewText(o.text)
    decreases maxDepth - depth + 1, |fields| + 2
  {
    if fields != [] {
      OffersAreOverviewTexts(Some(fields[0].value), NextHint(fields[0].key, recordLang, hint), depth, maxDepth);
      FieldOffersAreOverviewTexts(fields[1..], recordLang, hint, depth, maxDepth);
    }
  }

  /** The `english` array: texts of English offers, in order. */
  function EnglishTexts(offers: seq<Offer>): (r: seq<string>)
  {
    if offers == [] then []
    else (if offers[0].english then [offers[0].text] else []) + EnglishTexts(offers[1..])
  }

  /** The `fallbacks` array: texts of the other offers, in order. */
  function OtherTexts(offers: seq<Offer>): (r: seq<string>)
  {
    if offers == [] then []
    else (if offers[0].english then [] else [offers[0].text]) + OtherTexts(offers[1..])
  }

  lemma {:induction false} EnglishTextsAppend(a: seq<Offer>, b: seq<Offer>)
    ensures EnglishTexts(a + b) == EnglishTexts(a) + EnglishTexts(b)
    ensures OtherTexts(a + b) == OtherTexts(a) + OtherTexts(b)
  {
    if a == [] {
      assert a + b == b;
      AppendNil(EnglishTexts(b));
    } else {
      assert (a + b)[0] == a[0];
      assert (a + b)[1..] == a[1..] + b;
      EnglishTextsAppend(a[1..], b);
      var e := if a[0].english then [a[0].text] else [];
      var o := if a[0].english then [] else [a[0].text];
      AppendAssoc(e, EnglishTexts(a[1..]), EnglishTexts(b));
      AppendAssoc(o, OtherTexts(a[1..]), OtherTexts(b));
    }
  }

  lemma TextsOfOne(o: Offer)
    ensures EnglishTexts([o]) == if o.english then [o.text] else []
    ensures OtherTexts([o]) == if o.english then [] else [o.text]
  {
    assert [o][1..] == [];
  }

  /** Exploring entry `i` of an array moves its texts from what remains to what was collected. */
  lemma ItemsAdvance(english: seq<string>, fallbacks: seq<string>, items: seq<Json>, i: int,
                     hint: Option<string>, depth: int, maxDepth: int)
    requires 0 <= i < |items|
    ensures var head := Offers(Some(items[i]), hint, depth, maxDepth);
            var rest := ItemOffers(items[i + 1..], hint, depth, maxDepth);
            && english + EnglishTexts(ItemOffers(items[i..], hint, depth, maxDepth)) == (english + EnglishTexts(head)) + EnglishTexts(rest)
            && fallbacks + OtherTexts(ItemOffers(items[i..], hint, depth, maxDepth)) == (fallbacks + OtherTexts(head)) + OtherTexts(rest)
  {
    var head := Offers(Some(items[i]), hint, depth, maxDepth);
    var rest := ItemOffers(items[i + 1..], hint, depth, maxDepth);
    assert items[i..][1..] == items[i + 1..];
    EnglishTextsAppend(head, rest);
    AppendAssoc(english, EnglishTexts(head), EnglishTexts(rest));
    AppendAssoc(fallbacks, OtherTexts(head), OtherTexts(rest));
  }

  /** Exploring property `i` of a record moves its texts from what remains to what was collected. */
  lemma FieldsAdvance(english: seq<string>, fallbacks: seq<string>, fields: seq<Field>, i: int,
                      recordLang: Option<string>, hint: Option<string>, depth: int, maxDepth: int)
    requires 0 <= i < |fields|
    ensures var head := PropertyOffers(fields[i], recordLang, hint, depth, maxDepth);
            var rest := FieldOffers(fields[i + 1..], recordLang, hint, depth, maxDepth);
            && english + EnglishTexts(FieldOffers(fields[i..], recordLang, hint, depth, maxDepth)) == (english + EnglishTexts(head)) + EnglishTexts(rest)
            && fallbacks + OtherTexts(FieldOffers(fields[i..], recordLang, hint, depth, maxDepth)) == (fallbacks + OtherTexts(head)) + OtherTexts(rest)
  {
    var head := PropertyOffers(fields[i], recordLang, hint, depth, maxDepth);
    var rest := FieldOffers(fields[i + 1..], recordLang, hint, depth, maxDepth);
    assert fields[i..][1..] == fields[i + 1..];
    EnglishTextsAppend(head, rest);
    AppendAssoc(english, EnglishTexts(head), EnglishTexts(rest));
    AppendAssoc(fallbacks, OtherTexts(head), OtherTexts(rest));
  }

  lemma RecordOffersSplit(fields: seq<Field>, hint: Option<string>, depth: int, maxDepth: int)
    requires depth <= maxDepth
    ensures var lang := RecordLanguage(fields, hint);
            var own := OwnOffers(fields, lang, hint);
            var rest := FieldOffers(fields, lang, hint, depth + 1, maxDepth);
            && EnglishTexts(RecordOffers(fields, hint, depth, maxDepth)) == EnglishTexts(own) + EnglishTexts(rest)
            && OtherTexts(RecordOffers(fields, hint, depth, maxDepth)) == OtherTexts(own) + OtherTexts(rest)
  {
    var lang := RecordLanguage(fields, hint);
    EnglishTextsAppend(OwnOffers(fields, lang, hint), FieldOffers(fields, lang, hint, depth + 1, maxDepth));
  }

  /** Every recorded text comes from an offer of the same kind. */
  lemma {:induction false} TextsFromOffers(offers: seq<Offer>)
    ensures forall t :: t in EnglishTexts(offers) ==> exists o :: o in offers && o.english && o.text == t
    ensures forall t :: t in OtherTexts(offers) ==> exists o :: o in offers && !o.english && o.text == t
  {
    if offers != [] {
      TextsFromOffers(offers[1..]);
      assert forall o :: o in offers[1..] ==> o in offers;
    }
  }

  lemma {:induction false} EnglishTextsEmpty(offers: seq<Offer>)
    ensures EnglishTexts(offers) == [] <==> forall o :: o in offers ==> !o.english
    ensures OtherTexts(offers) == [] <==> forall o :: o in offers ==> o.english
  {
    if offers != [] {
      EnglishTextsEmpty(offers[1..]);
      assert forall o :: o in offers ==> o == offers[0] || o in offers[1..];
    }
  }

  /** The offer at `i` is English and none before it is. */
  predicate IsFirstEnglish(offers: seq<Offer>, i: int)
    requires 0 <= i < |offers|
  {
    offers[i].english && forall j :: 0 <= j < i ==> !offers[j].english
  }

  /** The head of the `english` array is the text of the first English offer. */
  lemma {:induction false} EnglishHead(offers: seq<Offer>)
    ensures forall i :: 0 <= i < |offers| && IsFirstEnglish(offers, i) ==>
              EnglishTexts(offers) != [] && EnglishTexts(offers)[0] == offers[i].text
  {
    if offers != [] {
      EnglishHead(offers[1..]);
      forall i | 0 <= i < |offers| && IsFirstEnglish(offers, i)
        ensures EnglishTexts(offers) != [] && EnglishTexts(offers)[0] == offers[i].text
      {
        if i > 0 {
          assert !offers[0].english;
          assert EnglishTexts(offers) == [] + EnglishTexts(offers[1..]) == EnglishTexts(offers[1..]);
          assert offers[1..][i - 1] == offers[i];
          assert IsFirstEnglish(offers[1..], i - 1);
        }
      }
    }
  }

  /**
   * `extractOverviewFromTranslations`: the first English text found, else
   * the first other text, else null. Whatever it returns is a trimmed,
   * non-empty text that does not look like a language code, and it returns
   * a non-English text only when no English one was found.
   */
  function OverviewFromTranslations(translations: Value, maxDepth: int): (r: Option<string>)
    ensures r.Some? ==> IsOverviewText(r.value)
    ensures r.None? <==> !Truthy(translations) || Offers(translations, None, 0, maxDepth) == []
    ensures r.Some? ==> exists o :: o in Offers(translations, None, 0, maxDepth) && o.text == r.value
                                  && (o.english || forall e :: e in Offers(translations, None, 0, maxDepth) ==> !e.english)
    ensures forall i :: Truthy(translations) && 0 <= i < |Offers(translations, None, 0, maxDepth)|
                        && IsFirstEnglish(Offers(translations, None, 0, maxDepth), i) ==>
              r == Some(Offers(translations, None, 0, maxDepth)[i].text)
    ensures Truthy(translations) && Offers(translations, None, 0, maxDepth) != []
            && (forall e :: e in Offers(translations, None, 0, maxDepth) ==> !e.english) ==>
              r == Some(Offers(translations, None, 0, maxDepth)[0].text)
  {
    if !Truthy(translations) then None
    else
      var offers := Offers(translations, None, 0, maxDepth);
      var english := EnglishTexts(offers);
      var fallbacks := OtherTexts(offers);
      EnglishTextsEmpty(offers);
      TextsFromOffers(offers);
      OffersAreOverviewTexts(translations, None, 0, maxDepth);
      EnglishHead(offers);
      if |english| > 0 then
        assert english[0] in english;
        Some(english[0])
      else if |fallbacks| > 0 then
        assert fallbacks[0] in fallbacks;
        Some(fallbacks[0])
      else
        assert forall o :: o in offers ==> o.english && !o.english;
        None
  }

  /** The state of one call: the `english` and `fallbacks` arrays the closures push into. */
  class OverviewCollector {
    var english: seq<string>
    var fallbacks: seq<string>

    constructor ()
      ensures english == [] && fallbacks == []
    {
      english := [];
      fallbacks := [];
    }

    /** `handleCandidate`: records a usable text under its language. */
    method Handle(language: Option<string>, value: Value)
      modifies this
      ensures english == old(english) + EnglishTexts(HandleCandidate(language, value))
      ensures fallbacks == old(fallbacks) + OtherTexts(HandleCandidate(language, value))
    {
      var offers := HandleCandidate(language, value);
      if offers == [] {
        AppendNil(english);
        AppendNil(fallbacks);
        return;
      }
      var offer := offers[0];
      assert offers == [offer];
      TextsOfOne(offer);
      if offer.english {
        AppendNil(fallbacks);
        english := english + [offer.text];
      } else {
        AppendNil(english);
        fallbacks := fallbacks + [offer.text];
      }
    }

    /** `explore(node, hint, depth)` */
    method Explore(node: Value, hint: Option<string>, depth: int, maxDepth: int)
      modifies this
      ensures english == old(english) + EnglishTexts(Offers(node, hint, depth, maxDepth))
      ensures fallbacks == old(fallbacks) + OtherTexts(Offers(node, hint, depth, maxDepth))
      decreases maxDepth - depth + 1, 2
    {
      if !Truthy(node) || depth > maxDepth {
        return;
      }
      match node.value {
        case JStr(_) =>
          Handle(hint, node);
        case JArr(items) =>
          ExploreItems(items, hint, depth, maxDepth);
        case JObj(fields) =>
          ExploreRecord(fields, hint, depth, maxDepth);
        case _ =>
      }
    }

    /** The array case of `explore`: every entry, one level deeper. */
    method ExploreItems(items: seq<Json>, hint: Option<string>, depth: int, maxDepth: int)
      requires depth <= maxDepth
      modifies this
      ensures english == old(english) + EnglishTexts(ItemOffers(items, hint, depth + 1, maxDepth))
      ensures fallbacks == old(fallbacks) + OtherTexts(ItemOffers(items, hint, depth + 1, maxDepth))
      decreases maxDepth - depth + 1, 0
    {
      ghost var e0, f0 := english, fallbacks;
      ghost var all := ItemOffers(items, hint, depth + 1, maxDepth);
      var i := 0;
      while i < |items|
        invariant 0 <= i <= |items|
        invariant e0 + EnglishTexts(all) == english + EnglishTexts(ItemOffers(items[i..], hint, depth + 1, maxDepth))
        invariant f0 + OtherTexts(all) == fallbacks + OtherTexts(ItemOffers(items[i..], hint, depth + 1, maxDepth))
      {
        ItemsAdvance(english, fallbacks, items, i, hint, depth + 1, maxDepth);
        Explore(Some(items[i]), hint, depth + 1, maxDepth);
        i := i + 1;
      }
      AppendNil(english);
      AppendNil(fallbacks);
    }

    /** The record case of `explore`: its own text, then every property, one level deeper. */
    method ExploreRecord(fields: seq<Field>, hint: Option<string>, depth: int, maxDepth: int)
      requires depth <= maxDepth
      modifies this
      ensures english == old(english) + EnglishTexts(RecordOffers(fields, hint, depth, maxDepth))
      ensures fallbacks == old(fallbacks) + OtherTexts(RecordOffers(fields, hint, depth, maxDepth))
      decreases maxDepth - depth + 1, 1
    {
      var recordLang := RecordLanguage(fields, hint);
      var overview := CoalesceString(Props(fields, TextKeys));
      RecordOffersSplit(fields, hint, depth, maxDepth);
      ghost var own := OwnOffers(fields, recordLang, hint);
      ghost var rest := FieldOffers(fields, recordLang, hint, depth + 1, maxDepth);
      AppendAssoc(english, EnglishTexts(own), EnglishTexts(rest));
      AppendAssoc(fallbacks, OtherTexts(own), OtherTexts(rest));
      if overview.Some? {
        Handle(OrElseText(recordLang, hint), Some(JStr(overview.value)));
      }
      ExploreFields(fields, recordLang, hint, depth, maxDepth);
    }

    /** One iteration of the `Object.entries` loop: the value, under the hint its key gives. */
    method ExploreProperty(field: Field, recordLang: Option<string>, hint: Option<string>, depth: int, maxDepth: int)
      modifies this
      ensures english == old(english) + EnglishTexts(PropertyOffers(field, recordLang, hint, depth, maxDepth))
      ensures fallbacks == old(fallbacks) + OtherTexts(PropertyOffers(field, recordLang, hint, depth, maxDepth))
      decreases maxDepth - depth + 1, 3
    {
      var nextHint := NextHint(field.key, recordLang, hint);
      Explore(Some(field.value), nextHint, depth, maxDepth);
    }

    /** The `Object.entries` loop of the record case. */
    method ExploreFields(fields: seq<Field>, recordLang: Option<string>, hint: Option<string>, depth: int, maxDepth: int)
      requires depth <= maxDepth
      modifies this
      ensures english == old(english) + EnglishTexts(FieldOffers(fields, recordLang, hint, depth + 1, maxDepth))
      ensures fallbacks == old(fallbacks) + OtherTexts(FieldOffers(fields, recordLang, hint, depth + 1, maxDepth))
      decreases maxDepth - depth + 1, 0
    {
      ghost var e0, f0 := english, fallbacks;
      ghost var all := FieldOffers(fields, recordLang, hint, depth + 1, maxDepth);
      var i := 0;
      while i < |fields|
        invariant 0 <= i <= |fields|
        invariant e0 + EnglishTexts(all) == english + EnglishTexts(FieldOffers(fields[i..], recordLang, hint, depth + 1, maxDepth))
        invariant f0 + OtherTexts(all) == fallbacks + OtherTexts(FieldOffers(fields[i..], recordLang, hint, depth + 1, maxDepth))
      {
        FieldsAdvance(english, fallbacks, fields, i, recordLang, hint, depth + 1, maxDepth);
        ExploreProperty(fields[i], recordLang, hint, depth + 1, maxDepth);
        i := i + 1;
      }
      AppendNil(english);
      AppendNil(fallbacks);
    }
  }

  /** `extractOverviewFromTranslations`, run as the source runs it: explore, then pick. */
  method ExtractOverviewFromTranslations(translations: Value, maxDepth: int) returns (r: Option<string>)
    ensures r == OverviewFromTranslations(translations, maxDepth)
  {
    if !Truthy(translations) {
      return None;
    }
    var collector := new OverviewCollector();
    collector.Explore(translations, None, 0, maxDepth);
    if |collector.english| > 0 {
      return Some(collector.english[0]);
    }
    if |collector.fallbacks| > 0 {
      return Some(collector.fallbacks[0]);
    }
    return None;
  }
}
