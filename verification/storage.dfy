/**
 * The persistence adapter (services/storage.ts). A guest keeps the whole
 * entry list under one local key and the settings under another; a signed-in
 * user (when the document database is configured) has one cloud collection
 * of entries and one cloud settings document. Every cloud error is swallowed
 * and read as "no data".
 *
 * Local storage plus JSON parsing is abstracted to what a read yields
 * (`EntriesSlot`, `SettingsSlot`); each cloud call takes a `fault` flag
 * saying whether it throws; `now` stands for `Date.now()`.
 */
module Storage {
  import opened Types
  import opened Entries

  const DefaultSettings := AppSettings(22, Lato, Dark, false)

  const WelcomeId := "welcome"
  /** The opening of the seeded guide; the rest of its text is not part of this model. */
  const WelcomeNote := "Hi. My name is Farza.\n\nI made this app."
  const WelcomeSnippet := "Hi. My name is Farza. I made this app."

  /** The seeded note for a guest with nothing usable stored; it is dated at the read. */
  function Welcome(now: int): (w: NoteEntry)
    ensures w.id == WelcomeId && w.content == WelcomeNote && w.createdAt == now && w.updatedAt == None
    ensures w.snippet == WelcomeSnippet && w.snippet != Snippet(w.content)
  {
    NoteEntry(WelcomeId, WelcomeNote, now, WelcomeSnippet, None)
  }

  /**
   * What reading and parsing the 'flow-entries' key yields: nothing (a
   * missing or empty value), text that is not JSON, JSON that is not an
   * array, or an array of notes.
   */
  datatype EntriesSlot = Missing | Unparseable | NonArray | List(entries: seq<NoteEntry>)

  /** What reading and parsing the 'flow-settings' key yields. */
  datatype SettingsSlot = NoSettings | UnparseableSettings | StoredSettings(settings: AppSettings)

  /** Guest `getEntries`: a stored array exactly as stored (even `[]`), otherwise the welcome note alone. */
  function GuestEntries(slot: EntriesSlot, now: int): (r: seq<NoteEntry>)
    ensures slot.List? ==> r == slot.entries
    ensures !slot.List? ==> |r| == 1 && r[0].id == WelcomeId && r[0].createdAt == now
  {
    if slot.List? then slot.entries else [Welcome(now)]
  }

  /** What guest `saveEntry` writes back: the upsert of `e` into what a guest read returns. */
  function GuestSaved(slot: EntriesSlot, e: NoteEntry, now: int): (r: EntriesSlot)
    ensures r.List? && e in r.entries
    ensures var read := GuestEntries(slot, now);
      |r.entries| == |read| + (if CountId(read, e.id) == 0 then 1 else 0)
  {
    List(Upsert(GuestEntries(slot, now), e))
  }

  /** What guest `deleteEntry` writes back: what a guest read returns, without `id`. */
  function GuestDeleted(slot: EntriesSlot, id: string, now: int): (r: EntriesSlot)
    ensures r.List? && CountId(r.entries, id) == 0
    ensures var read := GuestEntries(slot, now);
      |r.entries| == |read| - CountId(read, id)
      && forall x :: x in r.entries <==> x in read && x.id != id
  {
    List(RemoveId(GuestEntries(slot, now), id))
  }

  /** After a guest save, every later guest read holds the saved note exactly once. */
  lemma GuestRoundTrip(slot: EntriesSlot, e: NoteEntry, now: int, later: int)
    requires UniqueIds(GuestEntries(slot, now))
    ensures var r := GuestEntries(GuestSaved(slot, e, now), later);
      e in r && CountId(r, e.id) == 1 && Find(r, e.id) == Some(e) && UniqueIds(r)
  {
    var s := GuestEntries(slot, now);
    UpsertCounts(s, e);
    UpsertFind(s, e);
  }

  /**
   * The first guest save into a store with nothing usable persists the note
   * in front of the welcome note the read supplied (or alone, if it is the
   * welcome note itself).
   */
  lemma FirstGuestSave(slot: EntriesSlot, e: NoteEntry, now: int)
    requires !slot.List?
    ensures GuestSaved(slot, e, now)
         == List(if e.id == WelcomeId then [e] else [e, Welcome(now)])
  {
    assert GuestEntries(slot, now) == [Welcome(now)];
    if e.id != WelcomeId {
      assert CountId([Welcome(now)], e.id) == 0;
    }
  }

  /** Repeating a guest delete changes nothing, whenever it happens. */
  lemma GuestDeleteIdempotent(slot: EntriesSlot, id: string, now: int, later: int)
    ensures GuestDeleted(GuestDeleted(slot, id, now), id, later) == GuestDeleted(slot, id, now)
  {
    RemoveIdIdempotent(GuestEntries(slot, now), id);
  }

  /** Deleting the seeded welcome note of an unwritten store leaves an empty list, which later reads return as it is. */
  lemma DeletedWelcomeStaysDeleted(now: int, later: int)
    ensures GuestEntries(GuestDeleted(Missing, WelcomeId, now), later) == []
  {
  }

  /** Cloud `getEntries`: the user's documents newest first, or nothing when the query fails. */
  function CloudEntries(docs: seq<NoteEntry>, fault: bool): (r: seq<NoteEntry>)
    ensures fault ==> r == []
    ensures !fault ==> multiset(r) == multiset(docs) && SortedByCreatedDesc(r)
    ensures UniqueIds(docs) ==> UniqueIds(r)
  {
    SortUnique(docs);
    if fault then [] else SortByCreatedDesc(docs)
  }

  /**
   * After a cloud save that succeeds, the next cloud read holds the written
   * document exactly once, in a list still sorted newest first.
   */
  lemma CloudRoundTrip(docs: seq<NoteEntry>, e: NoteEntry)
    requires UniqueIds(docs)
    ensures var r := CloudEntries(Upsert(docs, e), false);
      e in r && CountId(r, e.id) == 1 && UniqueIds(r) && SortedByCreatedDesc(r)
  {
    var written := Upsert(docs, e);
    UpsertCounts(docs, e);
    SortCount(written, e.id);
    assert e in multiset(written);
  }

  class Store {
    /** Whether the document database was initialised (`db` is defined). */
    const dbConfigured: bool
    var localEntries: EntriesSlot
    var localSettings: SettingsSlot
    /** Per user id: the entry collection, in the order the query returns it. */
    var cloudEntries: map<string, seq<NoteEntry>>
    /** Per user id: the settings document, when it exists. */
    var cloudSettings: map<string, AppSettings>

    /** Every list this adapter writes keeps ids unique. */
    ghost predicate Valid()
      reads this
    {
      && (localEntries.List? ==> UniqueIds(localEntries.entries))
      && (forall u :: u in cloudEntries ==> UniqueIds(cloudEntries[u]))
    }

    /** A browser profile and cloud project nothing has been written to. */
    constructor (dbConfigured: bool)
      ensures Valid() && this.dbConfigured == dbConfigured
      ensures localEntries == Missing && localSettings == NoSettings
      ensures cloudEntries == map[] && cloudSettings == map[]
    {
      this.dbConfigured := dbConfigured;
      localEntries := Missing;
      localSettings := NoSettings;
      cloudEntries := map[];
      cloudSettings := map[];
    }

    /** `userId && db`: a non-empty user id and a configured database select the cloud. */
    predicate IsCloud(userId: Option<string>)
      reads this
      ensures IsCloud(userId) ==> dbConfigured && userId.Some? && userId.value != ""
      ensures dbConfigured && userId.Some? && userId.value != "" ==> IsCloud(userId)
    {
      Truthy(userId) && dbConfigured
    }

    function Collection(uid: string): seq<NoteEntry>
      reads this
    {
      if uid in cloudEntries then cloudEntries[uid] else []
    }

    /** `getEntries`: cloud documents sorted newest first ([] on error), or the guest read. */
    function GetEntries(userId: Option<string>, now: int, fault: bool): (r: seq<NoteEntry>)
      reads this
      ensures IsCloud(userId) ==> r == CloudEntries(Collection(userId.value), fault)
      ensures !IsCloud(userId) ==> r == GuestEntries(localEntries, now)
      ensures Valid() ==> UniqueIds(r)
    {
      if IsCloud(userId) then CloudEntries(Collection(userId.value), fault)
      else GuestEntries(localEntries, now)
    }

    /**
     * `saveEntry`: in the cloud, the document named by the entry's id is
     * overwritten with the entry restamped at `now` (nothing happens when the
     * write fails); as a guest, the list a guest read returns is updated in
     * place or extended at the front and written back whole.
     */
    method SaveEntry(userId: Option<string>, entry: NoteEntry, now: int, fault: bool)
      requires Valid()
      modifies this
      ensures Valid()
      ensures localSettings == old(localSettings) && cloudSettings == old(cloudSettings)
      ensures IsCloud(userId) ==>
        && localEntries == old(localEntries)
        && cloudEntries == if fault then old(cloudEntries)
           else old(cloudEntries)[userId.value := Upsert(old(Collection(userId.value)), entry.(updatedAt := Some(now)))]
      ensures !IsCloud(userId) ==>
        localEntries == GuestSaved(old(localEntries), entry, now) && cloudEntries == old(cloudEntries)
    {
      if IsCloud(userId) {
        if !fault {
          var stored := entry.(updatedAt := Some(now));
          var docs := Collection(userId.value);
          UpsertCounts(docs, stored);
          cloudEntries := cloudEntries[userId.value := Upsert(docs, stored)];
        }
      } else {
        var currentEntries := GetEntries(None, now, false);
        UpsertCounts(currentEntries, entry);
        var index := IndexOf(currentEntries, entry.id);
        if index >= 0 {
          currentEntries := currentEntries[index := entry];
        } else {
          currentEntries := [entry] + currentEntries;
        }
        localEntries := List(currentEntries);
      }
    }

    /**
     * `deleteEntry`: in the cloud, the document is removed (nothing happens
     * when that fails); as a guest, the list a guest read returns is written
     * back without every entry holding the id.
     */
    method DeleteEntry(userId: Option<string>, entryId: string, now: int, fault: bool)
      requires Valid()
      modifies this
      ensures Valid()
      ensures localSettings == old(localSettings) && cloudSettings == old(cloudSettings)
      ensures IsCloud(userId) ==>
        && localEntries == old(localEntries)
        && cloudEntries == if fault then old(cloudEntries)
           else old(cloudEntries)[userId.value := RemoveId(old(Collection(userId.value)), entryId)]
      ensures !IsCloud(userId) ==>
        localEntries == GuestDeleted(old(localEntries), entryId, now) && cloudEntries == old(cloudEntries)
    {
      if IsCloud(userId) {
        if !fault {
          var docs := Collection(userId.value);
          RemoveIdIdempotent(docs, entryId);
          cloudEntries := cloudEntries[userId.value := RemoveId(docs, entryId)];
        }
      } else {
        var currentEntries := GetEntries(None, now, false);
        RemoveIdIdempotent(currentEntries, entryId);
        var newEntries := RemoveId(currentEntries, entryId);
        localEntries := List(newEntries);
      }
    }

    /**
     * The settings a `getSettings` call returns: an existing cloud document
     * (a user, a database, a read that does not fail) wins; otherwise
     * parseable local settings; otherwise the defaults.
     */
    function SettingsFor(userId: Option<string>, fault: bool): (r: AppSettings)
      reads this
      ensures IsCloud(userId) && !fault && userId.value in cloudSettings ==> r == cloudSettings[userId.value]
      ensures !(IsCloud(userId) && !fault && userId.value in cloudSettings) ==>
        r == if localSettings.StoredSettings? then localSettings.settings else DefaultSettings
    {
      if IsCloud(userId) && !fault && userId.value in cloudSettings then cloudSettings[userId.value]
      else if localSettings.StoredSettings? then localSettings.settings
      else DefaultSettings
    }

    /**
     * `getSettings`: start from the defaults, override with parseable local
     * settings, override with an existing cloud document, which is then also
     * copied to the local key. A failing cloud read leaves the local choice.
     */
    method GetSettings(userId: Option<string>, fault: bool) returns (settings: AppSettings)
      requires Valid()
      modifies this
      ensures Valid()
      ensures settings == old(SettingsFor(userId, fault))
      ensures localSettings == if IsCloud(userId) && !fault && userId.value in old(cloudSettings)
                               then StoredSettings(settings) else old(localSettings)
      ensures localEntries == old(localEntries) && cloudEntries == old(cloudEntries)
      ensures cloudSettings == old(cloudSettings)
    {
      settings := DefaultSettings;
      if localSettings.StoredSettings? {
        settings := localSettings.settings;
      }
      if IsCloud(userId) && !fault {
        if userId.value in cloudSettings {
          settings := cloudSettings[userId.value];
          localSettings := StoredSettings(settings);
        }
      }
    }

    /**
     * `saveSettings`: the cloud document is written when there is a user and
     * a database (a failure is swallowed); the local key is written always.
     */
    method SaveSettings(userId: Option<string>, settings: AppSettings, fault: bool)
      requires Valid()
      modifies this
      ensures Valid()
      ensures localSettings == StoredSettings(settings)
      ensures cloudSettings == if IsCloud(userId) && !fault then old(cloudSettings)[userId.value := settings]
                               else old(cloudSettings)
      ensures localEntries == old(localEntries) && cloudEntries == old(cloudEntries)
    {
      if IsCloud(userId) && !fault {
        cloudSettings := cloudSettings[userId.value := settings];
      }
      localSettings := StoredSettings(settings);
    }
  }

  /** Settings saved by anyone are what the next read returns, unless a cloud write failed and an older cloud document exists. */
  method SettingsRoundTrip(store: Store, userId: Option<string>, settings: AppSettings, saveFault: bool)
    returns (read: AppSettings)
    requires store.Valid()
    modifies store
    ensures !store.IsCloud(userId) ==> read == settings
    ensures store.IsCloud(userId) && !saveFault ==> read == settings
    ensures store.IsCloud(userId) && saveFault && userId.value !in old(store.cloudSettings) ==> read == settings
    ensures store.IsCloud(userId) && saveFault && userId.value in old(store.cloudSettings) ==>
      read == old(store.cloudSettings)[userId.value]
  {
    store.SaveSettings(userId, settings, saveFault);
    read := store.GetSettings(userId, false);
  }
}
