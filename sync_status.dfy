/** The status record of one rsync endpoint, kept as one entity of a datastore (`SyncStatus`).
  * The datastore is an in-memory map from keys to entities; an entity maps field names to
  * values. */
module SyncStatus {
  import opened Wrappers
  import opened Values
  import opened Dates
  import opened DateText

  const RSYNC_KEY: string := "dropboxrsyncaddress"
  const COLLECTION_KEY: string := "lastsuccessfulcollection"
  const DEBUG_MESSAGE_KEY: string := "errorsincelastsuccessful"
  const LAST_COLLECTION_KEY: string := "lastcollectionattempt"
  const MTIME_KEY: string := "maxrawfilemtimearchived"

  /** The default of `get_last_archived_date`'s `default_date`. */
  const DEFAULT_ARCHIVED_DATE: Date := Date(2009, 1, 1)

  /** A datastore key: a kind and a name. */
  datatype Key = Key(kind: string, name: string)

  type Entity = map<string, Value>

  /** `get_last_archived_date` fails when the stored text is not a date (`xdate_to_date_or_die`
    * exits, or raises `OverflowError` on a number too large for `datetime.date`), or when the
    * stored value is a non-zero integer, which has no `count` method. */
  datatype StatusError = BadDate(error: DateError) | NotText(value: Value)

  /** The datastore of the project: `client.get(key)` and `client.put(entity)`. */
  class Datastore {
    var entities: map<Key, Entity>

    constructor (entities: map<Key, Entity>)
      ensures this.entities == entities
    {
      this.entities := entities;
    }

    /** `client.get(key)`: the entity, or `None`. */
    method Get(key: Key) returns (e: Option<Entity>)
      ensures e == Lookup(entities, key)
    {
      if key in entities {
        e := Some(entities[key]);
      } else {
        e := None;
      }
    }

    /** `client.put(entity)`, for an entity whose key is `key`. */
    method Put(key: Key, e: Entity)
      modifies this
      ensures entities == old(entities)[key := e]
    {
      entities := entities[key := e];
    }
  }

  function Lookup(entities: map<Key, Entity>, key: Key): Option<Entity> {
    if key in entities then Some(entities[key]) else None
  }

  /** Python's `not value` for what `get_data` returns: no entity, or an entity without fields. */
  predicate Missing(value: Option<Entity>) {
    value.None? || value.value == map[]
  }

  /** The entity `update_data` creates when there is none. */
  function NewEntity(): (e: Entity)
    ensures e.Keys == {COLLECTION_KEY, DEBUG_MESSAGE_KEY, LAST_COLLECTION_KEY, MTIME_KEY}
    ensures e[COLLECTION_KEY] == Str("") && e[DEBUG_MESSAGE_KEY] == Str("")
    ensures e[LAST_COLLECTION_KEY] == Str("") && e[MTIME_KEY] == Int(0)
  {
    map[COLLECTION_KEY := Str(""), DEBUG_MESSAGE_KEY := Str(""), LAST_COLLECTION_KEY := Str(""),
        MTIME_KEY := Int(0)]
  }

  /** The entity `update_data(entryKey, entryValue)` writes, given what `get_data` returned. */
  function Updated(value: Option<Entity>, entryKey: string, entryValue: Value): Entity {
    (if Missing(value) then NewEntity() else value.value)[entryKey := entryValue]
  }

  /** What `get_last_archived_date(defaultDate)` returns, given what `get_data` returned. */
  function ArchivedDate(value: Option<Entity>, defaultDate: Date): (r: Result<Date, StatusError>)
    ensures Missing(value) ==> r == Ok(defaultDate)
    ensures !Missing(value) && (COLLECTION_KEY !in value.value || Falsy(value.value[COLLECTION_KEY]))
      ==> r == Ok(defaultDate)
  {
    if Missing(value) then Ok(defaultDate)
    else if COLLECTION_KEY !in value.value || Falsy(value.value[COLLECTION_KEY]) then Ok(defaultDate)
    else
      match value.value[COLLECTION_KEY]
      case Str(text) =>
        (match ParseXDate(text)
         case Ok(d) => Ok(d)
         case Err(e) => Err(BadDate(e)))
      case Int(n) => Err(NotText(Int(n)))
  }

  class SyncStatus {
    const client: Datastore
    const rsyncUrl: string
    /** `_key`: set by the first `get_data`. */
    var key: Option<Key>

    /** The key of this endpoint's entity. */
    function TheKey(): Key
      reads this
    {
      Key(RSYNC_KEY, rsyncUrl)
    }

    /** `_key` is unset or the endpoint's key. */
    predicate Valid()
      reads this
    {
      key == None || key == Some(TheKey())
    }

    constructor (client: Datastore, rsyncUrl: string)
      ensures this.client == client && this.rsyncUrl == rsyncUrl
      ensures key == None
      ensures Valid()
    {
      this.client := client;
      this.rsyncUrl := rsyncUrl;
      key := None;
    }

    /** `get_data`: sets `_key` on first use, then reads the entity. */
    method GetData() returns (value: Option<Entity>)
      requires Valid()
      modifies this
      ensures Valid() && key == Some(TheKey())
      ensures value == Lookup(client.entities, TheKey())
    {
      if key == None {
        key := Some(Key(RSYNC_KEY, rsyncUrl));
      }
      value := client.Get(key.value);
    }

    /** `get_last_archived_date`. */
    method GetLastArchivedDate(defaultDate: Date) returns (r: Result<Date, StatusError>)
      requires Valid()
      modifies this
      ensures Valid() && key == Some(TheKey())
      ensures r == ArchivedDate(Lookup(client.entities, TheKey()), defaultDate)
    {
      var value := GetData();
      if value == None || value.value == map[] {
        return Ok(defaultDate);
      } else if COLLECTION_KEY !in value.value || Falsy(value.value[COLLECTION_KEY]) {
        return Ok(defaultDate);
      } else {
        match value.value[COLLECTION_KEY] {
          case Str(text) =>
            var parsed := ParseXDate(text);
            match parsed {
              case Ok(d) => return Ok(d);
              case Err(e) => return Err(BadDate(e));
            }
          case Int(n) =>
            return Err(NotText(Int(n)));
        }
      }
    }

    /** `update_data`: a missing entity is first created with its default fields; then the one
      * field is set and the entity written back. No other entity changes. */
    method UpdateData(entryKey: string, entryValue: Value)
      requires Valid()
      modifies this, client
      ensures Valid() && key == Some(TheKey())
      ensures client.entities == old(client.entities)[TheKey() := Updated(Lookup(old(client.entities), TheKey()), entryKey, entryValue)]
    {
      var value := GetData();
      var e: Entity;
      if value == None || value.value == map[] {
        e := map[];
        e := e[COLLECTION_KEY := Str("")];
        e := e[DEBUG_MESSAGE_KEY := Str("")];
        e := e[LAST_COLLECTION_KEY := Str("")];
        e := e[MTIME_KEY := Int(0)];
      } else {
        e := value.value;
      }
      e := e[entryKey := entryValue];
      client.Put(key.value, e);
    }

    /** `update_last_archived_date`: stores the day as `x%d-%02d-%02d`. */
    method UpdateLastArchivedDate(d: Date)
      requires Valid() && Dates.Valid(d)
      modifies this, client
      ensures Valid() && key == Some(TheKey())
      ensures client.entities == old(client.entities)[TheKey() := Updated(Lookup(old(client.entities), TheKey()), COLLECTION_KEY, Str(FormatXDate(d)))]
    {
      UpdateData(COLLECTION_KEY, Str(FormatXDate(d)));
    }

    /** `update_debug_message`, for a message that is already text. */
    method UpdateDebugMessage(message: string)
      requires Valid()
      modifies this, client
      ensures Valid() && key == Some(TheKey())
      ensures client.entities == old(client.entities)[TheKey() := Updated(Lookup(old(client.entities), TheKey()), DEBUG_MESSAGE_KEY, Str(message))]
    {
      UpdateData(DEBUG_MESSAGE_KEY, Str(message));
    }

    /** `update_mtime`. */
    method UpdateMtime(mtime: int)
      requires Valid()
      modifies this, client
      ensures Valid() && key == Some(TheKey())
      ensures client.entities == old(client.entities)[TheKey() := Updated(Lookup(old(client.entities), TheKey()), MTIME_KEY, Int(mtime))]
    {
      UpdateData(MTIME_KEY, Int(mtime));
    }
  }

  /** The fields of the entity `update_data` writes: the new field, the old fields of an existing
    * entity unchanged, or the four default fields of a new one. */
  lemma UpdatedFields(value: Option<Entity>, entryKey: string, entryValue: Value)
    ensures var e := Updated(value, entryKey, entryValue);
      && entryKey in e && e[entryKey] == entryValue
      && (!Missing(value) ==> e.Keys == value.value.Keys + {entryKey})
      && (!Missing(value) ==> forall f :: f in value.value && f != entryKey ==> e[f] == value.value[f])
      && (Missing(value) ==> e.Keys == NewEntity().Keys + {entryKey})
      && (Missing(value) ==> forall f :: f in NewEntity() && f != entryKey ==> e[f] == NewEntity()[f])
  {
  }

  /** What `update_last_archived_date` writes, `get_last_archived_date` reads back, whatever the
    * entity held before and whatever the default. */
  lemma ArchivedDateRoundTrip(value: Option<Entity>, d: Date, defaultDate: Date)
    requires Dates.Valid(d)
    ensures ArchivedDate(Some(Updated(value, COLLECTION_KEY, Str(FormatXDate(d)))), defaultDate) == Ok(d)
  {
    XDateRoundTrip(d);
    var e := Updated(value, COLLECTION_KEY, Str(FormatXDate(d)));
    assert COLLECTION_KEY in e;
    assert FormatXDate(d)[0] == 'x';
  }

  /** A new entity created by setting another field has an empty collection date, so the
    * default date is returned. */
  lemma NewEntityHasNoDate(entryKey: string, entryValue: Value, defaultDate: Date)
    requires entryKey != COLLECTION_KEY
    ensures ArchivedDate(Some(Updated(None, entryKey, entryValue)), defaultDate) == Ok(defaultDate)
  {
    var e := Updated(None, entryKey, entryValue);
    assert COLLECTION_KEY in e && e[COLLECTION_KEY] == Str("");
  }

  /** A non-empty text is stored in the collection field. */
  predicate Stored(value: Option<Entity>) {
    && !Missing(value) && COLLECTION_KEY in value.value
    && value.value[COLLECTION_KEY].Str? && !Falsy(value.value[COLLECTION_KEY])
  }

  /** `get_last_archived_date` returns the default or a real date, and fails only on a stored
    * value that is not a date string. A stored text gives the day `xdate_to_date_or_die` parses
    * from it, or fails with its error. */
  lemma ArchivedDateResult(value: Option<Entity>, defaultDate: Date)
    requires Dates.Valid(defaultDate)
    ensures var r := ArchivedDate(value, defaultDate);
      && (r.Ok? ==> Dates.Valid(r.value))
      && (r.Err? <==>
            (&& !Missing(value) && COLLECTION_KEY in value.value
             && !Falsy(value.value[COLLECTION_KEY])
             && (value.value[COLLECTION_KEY].Str? ==> ParseXDate(value.value[COLLECTION_KEY].text).Err?)))
      && (Stored(value) ==> var parsed := ParseXDate(value.value[COLLECTION_KEY].text);
            && (parsed.Ok? ==> r == Ok(parsed.value))
            && (parsed.Err? ==> r == Err(BadDate(parsed.error))))
  {
  }

  /** `get_last_archived_date()` as the scraper calls it, with the default 2009-01-01: nothing
    * stored gives that day, and any day returned is a valid date. */
  lemma DefaultArchivedDate(value: Option<Entity>)
    ensures var r := ArchivedDate(value, DEFAULT_ARCHIVED_DATE);
      && (Missing(value) ==> r == Ok(Date(2009, 1, 1)))
      && (r.Ok? ==> Dates.Valid(r.value))
  {
    ArchivedDateResult(value, DEFAULT_ARCHIVED_DATE);
  }

  /** Writing the archive date through the class and reading it back gives the date. */
  method ArchiveThenRead(status: SyncStatus, d: Date, defaultDate: Date) returns (r: Result<Date, StatusError>)
    requires status.Valid() && Dates.Valid(d)
    modifies status, status.client
    ensures r == Ok(d)
  {
    status.UpdateLastArchivedDate(d);
    r := status.GetLastArchivedDate(defaultDate);
    ArchivedDateRoundTrip(Lookup(old(status.client.entities), status.TheKey()), d, defaultDate);
  }
}
