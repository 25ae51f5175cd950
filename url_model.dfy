/**
 * The Url collection (src/models/Url.js): the Click and Link records, the
 * schema's field constraints and defaults, the unique indexes, the documents
 * a query hands out and the store that holds the records.
 */
module UrlModel {
  import opened Wrappers
  import opened JsString

  /** One recorded visit. Every field but the timestamp may be absent. */
  datatype Click = Click(
    timestamp: int,
    ipAddress: Option<string>,
    country: Option<string>,
    region: Option<string>,
    city: Option<string>,
    os: Option<string>,
    deviceType: Option<string>,
    browser: Option<string>,
    referrer: Option<string>)

  /**
   * One shortened link as stored. `managementPassword` is optional in the type
   * because a default read leaves it out; the schema requires it in the store.
   */
  datatype Link = Link(
    longUrl: string,
    shortId: string,
    customShortId: Option<string>,
    createdAt: int,
    expiresAt: Option<int>,
    password: Option<string>,
    managementPassword: Option<string>,
    totalClicks: int,
    clicks: seq<Click>)

  /** A date field of a request body: the empty string, or a date parsed to a timestamp. */
  datatype DateText = EmptyText | Date(timestamp: int)

  const ShortIdMinLength: nat := 6
  const ShortIdMaxLength: nat := 255
  const CustomShortIdMinLength: nat := 10
  const CustomShortIdMaxLength: nat := 255

  /** The schema's validators: required fields are non-empty strings, and the length bounds hold. */
  predicate SchemaValid(l: Link) {
    && l.longUrl != ""
    && ShortIdMinLength <= |l.shortId| <= ShortIdMaxLength
    && (l.customShortId.Some? ==>
          CustomShortIdMinLength <= |l.customShortId.value| <= CustomShortIdMaxLength)
    && Truthy(l.managementPassword)
  }

  /** The counter agrees with the click log. */
  predicate ClickCountConsistent(l: Link) {
    l.totalClicks == |l.clicks|
  }

  /** Whether some record already carries `id` as its custom short id (the sparse unique index). */
  predicate CustomIdTaken(docs: map<string, Link>, id: string) {
    exists k :: k in docs && docs[k].customShortId == Some(id)
  }

  predicate CustomIdsUnique(docs: map<string, Link>) {
    forall a, b :: a in docs && b in docs && a != b && docs[a].customShortId.Some? ==>
      docs[a].customShortId != docs[b].customShortId
  }

  /**
   * What holds of the stored records between requests: each record sits under
   * its own short id (so short ids are unique), passes the schema, has a
   * consistent click counter, and custom short ids are unique.
   */
  predicate StoreInvariant(docs: map<string, Link>) {
    && (forall id :: id in docs ==>
          docs[id].shortId == id && SchemaValid(docs[id]) && ClickCountConsistent(docs[id]))
    && CustomIdsUnique(docs)
  }

  /** A new record with the schema's defaults: created now, no clicks, a zero counter. */
  function NewLink(longUrl: string, shortId: string, customShortId: Option<string>,
                   expiresAt: Option<int>, password: Option<string>,
                   managementPassword: string, now: int): (l: Link)
    ensures l.createdAt == now && l.totalClicks == 0 && l.clicks == []
    ensures ClickCountConsistent(l)
  {
    Link(longUrl, shortId, customShortId, now, expiresAt, password, Some(managementPassword), 0, [])
  }

  datatype StoreError = ValidationError | DuplicateKey | DocumentNotFound

  /**
   * Inserting a new record: the schema's validators run first, then the unique
   * indexes on `shortId` and on `customShortId` (which ignores records without one).
   */
  function InsertOutcome(docs: map<string, Link>, l: Link): (r: (Outcome<StoreError>, map<string, Link>))
    ensures r.0 == Fail(ValidationError) <==> !SchemaValid(l)
    ensures r.0 == Fail(DuplicateKey) <==>
              SchemaValid(l) && (l.shortId in docs || (l.customShortId.Some? && CustomIdTaken(docs, l.customShortId.value)))
    ensures r.0.Pass? <==>
              SchemaValid(l) && l.shortId !in docs && !(l.customShortId.Some? && CustomIdTaken(docs, l.customShortId.value))
    ensures r.0.Pass? ==> r.1 == docs[l.shortId := l]
    ensures r.0.Fail? ==> r.1 == docs
    ensures StoreInvariant(docs) && ClickCountConsistent(l) ==> StoreInvariant(r.1)
  {
    if !SchemaValid(l) then (Fail(ValidationError), docs)
    else if l.shortId in docs || (l.customShortId.Some? && CustomIdTaken(docs, l.customShortId.value)) then
      (Fail(DuplicateKey), docs)
    else
      var docs' := docs[l.shortId := l];
      assert StoreInvariant(docs) ==> CustomIdsUnique(docs') by {
        if StoreInvariant(docs) {
          forall a, b | a in docs' && b in docs' && a != b && docs'[a].customShortId.Some?
            ensures docs'[a].customShortId != docs'[b].customShortId
          {
            if b == l.shortId {
              assert docs'[a] == docs[a];
            }
          }
        }
      }
      (Pass, docs')
  }

  /** What a query returns: the record, without its management secret unless asked for. */
  function Project(l: Link, selectSecret: bool): (d: Link)
    ensures selectSecret ==> d == l
    ensures !selectSecret ==> d.managementPassword.None? && d == l.(managementPassword := d.managementPassword)
  {
    if selectSecret then l else l.(managementPassword := None)
  }

  /** Saving an edited document writes back the paths the controllers may change and keeps the rest. */
  function Merge(stored: Link, edited: Link): Link {
    stored.(longUrl := edited.longUrl, expiresAt := edited.expiresAt, password := edited.password,
            totalClicks := edited.totalClicks, clicks := edited.clicks)
  }

  /** Saving a loaded document back: the record must still exist and the result must pass the schema. */
  function SaveOutcome(docs: map<string, Link>, edited: Link): (r: (Outcome<StoreError>, map<string, Link>))
    ensures r.0.Pass? <==> edited.shortId in docs && SchemaValid(Merge(docs[edited.shortId], edited))
    ensures r.0.Pass? ==> r.1 == docs[edited.shortId := Merge(docs[edited.shortId], edited)]
    ensures r.0.Fail? ==> r.1 == docs
    ensures StoreInvariant(docs) && ClickCountConsistent(edited) ==> StoreInvariant(r.1)
  {
    if edited.shortId !in docs then (Fail(DocumentNotFound), docs)
    else
      var merged := Merge(docs[edited.shortId], edited);
      if !SchemaValid(merged) then (Fail(ValidationError), docs)
      else
        var docs' := docs[edited.shortId := merged];
        assert StoreInvariant(docs) ==> CustomIdsUnique(docs') by {
          if StoreInvariant(docs) {
            forall a, b | a in docs' && b in docs' && a != b && docs'[a].customShortId.Some?
              ensures docs'[a].customShortId != docs'[b].customShortId
            {
              assert docs'[a].customShortId == docs[a].customShortId;
              assert docs'[b].customShortId == docs[b].customShortId;
            }
          }
        }
        (Pass, docs')
  }

  /**
   * A record loaded into memory. The controllers change its mutable paths in
   * place (push a click, bump the counter, replace the target) and then save it.
   */
  class LinkDocument {
    const shortId: string
    const customShortId: Option<string>
    const createdAt: int
    const managementPassword: Option<string>
    var longUrl: string
    var expiresAt: Option<int>
    var password: Option<string>
    var totalClicks: int
    var clicks: seq<Click>

    /** The record this document currently holds. */
    function Value(): Link
      reads this
    {
      Link(longUrl, shortId, customShortId, createdAt, expiresAt, password, managementPassword, totalClicks, clicks)
    }

    /** Hydrates a document from a stored record. */
    constructor (l: Link)
      ensures Value() == l
    {
      shortId, customShortId, createdAt, managementPassword := l.shortId, l.customShortId, l.createdAt, l.managementPassword;
      longUrl, expiresAt, password, totalClicks, clicks := l.longUrl, l.expiresAt, l.password, l.totalClicks, l.clicks;
    }
  }

  /** The Url collection: records keyed by their short id. */
  class UrlCollection {
    var docs: map<string, Link>

    ghost predicate Valid()
      reads this
    {
      StoreInvariant(docs)
    }

    constructor ()
      ensures docs == map[] && Valid()
    {
      docs := map[];
    }

    /** `Url.findOne({ shortId })` used only for whether a record exists. */
    predicate Exists(shortId: string)
      reads this
    {
      shortId in docs
    }

    /** `Url.findOne({ customShortId })` used only for whether a record exists. */
    predicate HasCustomShortId(id: string)
      reads this
    {
      CustomIdTaken(docs, id)
    }

    /** `Url.findOne({ shortId })`, with `.select('+managementPassword')` when `selectSecret` holds. */
    method FindOne(shortId: string, selectSecret: bool) returns (doc: LinkDocument?)
      ensures doc == null <==> shortId !in docs
      ensures doc != null ==> fresh(doc) && doc.Value() == Project(docs[shortId], selectSecret)
    {
      if shortId in docs {
        doc := new LinkDocument(Project(docs[shortId], selectSecret));
      } else {
        doc := null;
      }
    }

    /** `new Url({...}).save()`. */
    method Insert(l: Link) returns (r: Outcome<StoreError>)
      modifies this
      ensures (r, docs) == InsertOutcome(old(docs), l)
    {
      var outcome := InsertOutcome(docs, l);
      r, docs := outcome.0, outcome.1;
    }

    /** `doc.save()` on a document loaded by `FindOne`. */
    method Save(doc: LinkDocument) returns (r: Outcome<StoreError>)
      modifies this
      ensures (r, docs) == SaveOutcome(old(docs), doc.Value())
    {
      var outcome := SaveOutcome(docs, doc.Value());
      r, docs := outcome.0, outcome.1;
    }
  }
}
