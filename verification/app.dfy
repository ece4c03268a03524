/**
 * The editor shell (App.tsx): the text buffer and the open note's id, the
 * in-memory list of notes kept in step with the store by optimistic
 * updates, the save status, the writing timer, and the handlers that move
 * between notes.
 *
 * The 1000 ms debounced save is one atomic step (`FireSave`); an effect run
 * is one step (`AutosaveEffect`); `now` stands for `Date.now()` and
 * `freshId` for the id generator's result.
 */
module App {
  import opened Types
  import opened Entries
  import Countdown
  import Storage

  datatype SaveStatus = Saved | Saving

  /**
   * The note a save writes for the open buffer: the open id and text, the
   * snippet of the text, updated now, and created when the list says it
   * was (a missing note or a recorded time of 0 counts as "created now").
   */
  function SavedEntry(entries: seq<NoteEntry>, id: string, content: string, now: int): (e: NoteEntry)
    ensures e.id == id && e.content == content && e.snippet == Snippet(content) && e.updatedAt == Some(now)
    ensures var listed := Find(entries, id);
      e.createdAt == if listed.Some? && listed.value.createdAt != 0 then listed.value.createdAt else now
  {
    var existing := Find(entries, id);
    var createdAt := if existing.Some? && existing.value.createdAt != 0 then existing.value.createdAt else now;
    NoteEntry(id, content, createdAt, Snippet(content), Some(now))
  }

  /**
   * Once a note has been saved with a non-zero creation time, every later
   * save of that note keeps that creation time, whatever the text and the
   * clock.
   */
  lemma CreatedAtStable(entries: seq<NoteEntry>, id: string, first: string, second: string, now1: int, now2: int)
    requires SavedEntry(entries, id, first, now1).createdAt != 0
    ensures var e1 := SavedEntry(entries, id, first, now1);
      SavedEntry(Upsert(entries, e1), id, second, now2).createdAt == e1.createdAt
  {
    UpsertFind(entries, SavedEntry(entries, id, first, now1));
  }

  /**
   * The note opened once the data has loaded: the welcome note when the list
   * starts with it, otherwise an empty buffer with no id.
   */
  function InitialContent(entries: seq<NoteEntry>): (r: (string, Option<string>))
    ensures r.1.Some? <==> entries != [] && entries[0].id == Storage.WelcomeId
    ensures r.1.Some? ==> r == (entries[0].content, Some(Storage.WelcomeId))
    ensures r.1.None? ==> r.0 == ""
  {
    if |entries| > 0 && entries[0].id == Storage.WelcomeId then (entries[0].content, Some(Storage.WelcomeId))
    else ("", None)
  }

  /**
   * A guest on a fresh profile opens the seeded welcome note, and the first
   * save of whatever they type there replaces it: the store then holds that
   * one note, under the welcome id, with the text and its snippet.
   */
  lemma FirstLaunchEditsWelcome(loadedAt: int, text: string, now: int)
    ensures var loaded := Storage.GuestEntries(Storage.Missing, loadedAt);
      var (buffer, id) := InitialContent(loaded);
      && buffer == Storage.WelcomeNote && id == Some(Storage.WelcomeId)
      && var saved := SavedEntry(loaded, Storage.WelcomeId, text, now);
         Storage.GuestEntries(Storage.GuestSaved(Storage.Missing, saved, now), now)
           == [NoteEntry(Storage.WelcomeId, text, if loadedAt != 0 then loadedAt else now, Snippet(text), Some(now))]
  {
    var saved := SavedEntry(Storage.GuestEntries(Storage.Missing, loadedAt), Storage.WelcomeId, text, now);
    Storage.FirstGuestSave(Storage.Missing, saved, now);
  }

  /** `user?.uid || null`: the signed-in user's id, or no user id for a guest. */
  function ScopeOf(user: Option<User>): (r: Option<string>)
    ensures Truthy(r) <==> user.Some? && user.value.uid != ""
    ensures r.Some? ==> user.Some? && r.value == user.value.uid
  {
    if user.Some? && user.value.uid != "" then Some(user.value.uid) else None
  }

  class Editor {
    const store: Storage.Store
    /** Whether the authentication service was initialised (`auth` is defined). */
    const authConfigured: bool
    var user: Option<User>
    var settings: AppSettings
    var entries: seq<NoteEntry>
    var content: string
    var currentEntryId: Option<string>
    var isHistoryOpen: bool
    var saveStatus: SaveStatus
    var isInitialized: bool
    /** Whether the one-shot choice of initial content has been made. */
    var initialLoadDone: bool
    var timerSeconds: int
    var isTimerRunning: bool

    /** The store keeps ids unique, so does the in-memory list, and the timer is in a reachable state. */
    ghost predicate Valid()
      reads this, store
    {
      store.Valid() && Countdown.Valid(Timer()) && UniqueIds(entries)
    }

    function Timer(): Countdown.Timer
      reads this
    {
      Countdown.Timer(timerSeconds, isTimerRunning)
    }

    /** The scope passed to the store for the current user. */
    function Scope(): Option<string>
      reads this
    {
      ScopeOf(user)
    }

    constructor (store: Storage.Store, authConfigured: bool)
      requires store.Valid()
      ensures Valid() && this.store == store && this.authConfigured == authConfigured
      ensures user == None && settings == Storage.DefaultSettings
      ensures entries == [] && content == "" && currentEntryId == None
      ensures !isHistoryOpen && saveStatus == Saved && !isInitialized && !initialLoadDone
      ensures Timer() == Countdown.Reset()
    {
      this.store := store;
      this.authConfigured := authConfigured;
      user := None;
      settings := Storage.DefaultSettings;
      entries := [];
      content := "";
      currentEntryId := None;
      isHistoryOpen := false;
      saveStatus := Saved;
      isInitialized := false;
      initialLoadDone := false;
      timerSeconds := Countdown.SessionSeconds;
      isTimerRunning := false;
    }

    /**
     * The load that the authentication-state callback performs whenever the
     * identity changes: the user is recorded, the list and the settings are
     * replaced by what the store holds for that scope (a cloud settings
     * document is also copied to the local key), and the shell is
     * initialised. The buffer and the open id are kept.
     */
    method Reload(signedIn: Option<User>, now: int, entriesFault: bool, settingsFault: bool)
      requires Valid()
      modifies this, store
      ensures Valid()
      ensures user == signedIn && isInitialized
      ensures entries == old(store.GetEntries(ScopeOf(signedIn), now, entriesFault))
      ensures settings == old(store.SettingsFor(ScopeOf(signedIn), settingsFault))
      ensures store.localEntries == old(store.localEntries) && store.cloudEntries == old(store.cloudEntries)
      ensures store.cloudSettings == old(store.cloudSettings)
      ensures var scope := ScopeOf(signedIn);
        store.localSettings ==
          if store.IsCloud(scope) && !settingsFault && scope.value in old(store.cloudSettings)
          then Storage.StoredSettings(settings) else old(store.localSettings)
      ensures content == old(content) && currentEntryId == old(currentEntryId)
      ensures saveStatus == old(saveStatus) && Timer() == old(Timer())
      ensures initialLoadDone == old(initialLoadDone) && isHistoryOpen == old(isHistoryOpen)
    {
      user := signedIn;
      var scope := Scope();
      var loaded := store.GetEntries(scope, now, entriesFault);
      var loadedSettings := store.GetSettings(scope, settingsFault);
      entries := loaded;
      settings := loadedSettings;
      isInitialized := true;
    }

    /** Once, after the first load: open the welcome note if it leads the list, otherwise start empty. */
    method LoadInitialContent()
      requires Valid()
      modifies this
      ensures Valid()
      ensures isInitialized && !old(initialLoadDone) ==>
        initialLoadDone && (content, currentEntryId) == InitialContent(entries)
      ensures !(isInitialized && !old(initialLoadDone)) ==>
        content == old(content) && currentEntryId == old(currentEntryId) && initialLoadDone == old(initialLoadDone)
      ensures entries == old(entries) && saveStatus == old(saveStatus) && Timer() == old(Timer())
      ensures user == old(user) && settings == old(settings) && isInitialized == old(isInitialized)
      ensures isHistoryOpen == old(isHistoryOpen)
    {
      if isInitialized && !initialLoadDone {
        initialLoadDone := true;
        if |entries| > 0 && entries[0].id == Storage.WelcomeId {
          content := entries[0].content;
          currentEntryId := Some(Storage.WelcomeId);
        } else {
          content := "";
          currentEntryId := None;
        }
      }
    }

    /** A keystroke: the buffer takes the new text, and the timer starts if it sits stopped at the full session. */
    method Edit(text: string)
      requires Valid()
      modifies this
      ensures Valid()
      ensures content == text && Timer() == Countdown.Arm(old(Timer()))
      ensures entries == old(entries) && currentEntryId == old(currentEntryId) && saveStatus == old(saveStatus)
      ensures user == old(user) && settings == old(settings) && isInitialized == old(isInitialized)
      ensures initialLoadDone == old(initialLoadDone) && isHistoryOpen == old(isHistoryOpen)
    {
      content := text;
      if !isTimerRunning && timerSeconds == Countdown.SessionSeconds {
        isTimerRunning := true;
      }
    }

    /**
     * One run of the autosave effect, before the shell is initialised a
     * no-op. A buffer with text and no id gets the fresh id; this run still
     * sees no id, so it schedules nothing. A run that sees an id marks the
     * status `saving` (and schedules the save). An existing id never changes.
     */
    method AutosaveEffect(freshId: string)
      requires Valid()
      requires freshId != "" && CountId(entries, freshId) == 0
      modifies this
      ensures Valid()
      ensures !old(isInitialized) ==> currentEntryId == old(currentEntryId) && saveStatus == old(saveStatus)
      ensures old(isInitialized) ==>
        && currentEntryId == (if !Truthy(old(currentEntryId)) && |content| > 0 then Some(freshId) else old(currentEntryId))
        && saveStatus == (if Truthy(old(currentEntryId)) then Saving else old(saveStatus))
      ensures Truthy(old(currentEntryId)) ==> currentEntryId == old(currentEntryId)
      ensures content == old(content) && entries == old(entries) && Timer() == old(Timer())
      ensures user == old(user) && settings == old(settings) && isInitialized == old(isInitialized)
      ensures initialLoadDone == old(initialLoadDone) && isHistoryOpen == old(isHistoryOpen)
    {
      if !isInitialized {
        return;
      }
      var idAtRender := currentEntryId;
      if !Truthy(idAtRender) && |content| > 0 {
        currentEntryId := Some(freshId);
      }
      if Truthy(idAtRender) {
        saveStatus := Saving;
      }
    }

    /**
     * The debounced save fires: the note for the buffer is upserted into the
     * list before the store is written, then the status is `saved` whether
     * or not the write failed. Afterwards a guest read holds that note
     * exactly once.
     */
    method FireSave(now: int, fault: bool)
      requires Valid() && isInitialized && Truthy(currentEntryId)
      modifies this, store
      ensures Valid()
      ensures entries == Upsert(old(entries), SavedEntry(old(entries), old(currentEntryId).value, old(content), now))
      ensures !store.IsCloud(Scope()) ==>
        var saved := SavedEntry(old(entries), old(currentEntryId).value, old(content), now);
        store.localEntries == Storage.GuestSaved(old(store.localEntries), saved, now)
      ensures !store.IsCloud(Scope()) ==>
        var saved := SavedEntry(old(entries), old(currentEntryId).value, old(content), now);
        var read := Storage.GuestEntries(store.localEntries, now);
        CountId(read, saved.id) == 1 && Find(read, saved.id) == Some(saved)
      ensures store.IsCloud(Scope()) ==>
        var saved := SavedEntry(old(entries), old(currentEntryId).value, old(content), now);
        var uid := Scope().value;
        store.cloudEntries == if fault then old(store.cloudEntries)
          else old(store.cloudEntries)[uid := Upsert(old(store.Collection(uid)), saved.(updatedAt := Some(now)))]
      ensures !store.IsCloud(Scope()) ==> store.cloudEntries == old(store.cloudEntries)
      ensures store.IsCloud(Scope()) ==> store.localEntries == old(store.localEntries)
      ensures saveStatus == Saved
      ensures content == old(content) && currentEntryId == old(currentEntryId) && Timer() == old(Timer())
      ensures user == old(user) && settings == old(settings) && isInitialized == old(isInitialized)
      ensures initialLoadDone == old(initialLoadDone) && isHistoryOpen == old(isHistoryOpen)
      ensures store.localSettings == old(store.localSettings) && store.cloudSettings == old(store.cloudSettings)
    {
      var id := currentEntryId.value;
      var entryToSave := SavedEntry(entries, id, content, now);
      ApplyOptimistic(entryToSave);
      ghost var slotBefore := store.localEntries;
      ghost var guestRead := store.GetEntries(None, now, false);
      assert UniqueIds(Storage.GuestEntries(slotBefore, now));
      store.SaveEntry(Scope(), entryToSave, now, fault);
      if !store.IsCloud(Scope()) {
        Storage.GuestRoundTrip(slotBefore, entryToSave, now, now);
      }
      saveStatus := Saved;
    }

    /**
     * The optimistic list update of a save: a copy of the list with the note
     * assigned at the index of its id, or the note put in front.
     */
    method ApplyOptimistic(entryToSave: NoteEntry)
      requires Valid()
      modifies this
      ensures Valid()
      ensures entries == Upsert(old(entries), entryToSave)
      ensures content == old(content) && currentEntryId == old(currentEntryId) && Timer() == old(Timer())
      ensures user == old(user) && settings == old(settings) && isInitialized == old(isInitialized)
      ensures initialLoadDone == old(initialLoadDone) && isHistoryOpen == old(isHistoryOpen)
      ensures saveStatus == old(saveStatus)
    {
      UpsertCounts(entries, entryToSave);
      var existingIndex := IndexOf(entries, entryToSave.id);
      if existingIndex >= 0 {
        var newEntries := entries;
        newEntries := newEntries[existingIndex := entryToSave];
        entries := newEntries;
      } else {
        entries := [entryToSave] + entries;
      }
    }

    /** "New Entry": an empty buffer with no id and a reset timer; nothing is deleted. */
    method NewEntry()
      requires Valid()
      modifies this
      ensures Valid()
      ensures content == "" && currentEntryId == None && Timer() == Countdown.Reset()
      ensures entries == old(entries) && saveStatus == old(saveStatus)
      ensures user == old(user) && settings == old(settings) && isInitialized == old(isInitialized)
      ensures initialLoadDone == old(initialLoadDone) && isHistoryOpen == old(isHistoryOpen)
    {
      content := "";
      currentEntryId := None;
      timerSeconds := Countdown.SessionSeconds;
      isTimerRunning := false;
    }

    /** Opening a note from the drawer: its text and id, the drawer closed, the timer reset. */
    method LoadEntry(entry: NoteEntry)
      requires Valid()
      modifies this
      ensures Valid()
      ensures content == entry.content && currentEntryId == Some(entry.id)
      ensures !isHistoryOpen && Timer() == Countdown.Reset()
      ensures entries == old(entries) && saveStatus == old(saveStatus)
      ensures user == old(user) && settings == old(settings) && isInitialized == old(isInitialized)
      ensures initialLoadDone == old(initialLoadDone)
    {
      content := entry.content;
      currentEntryId := Some(entry.id);
      isHistoryOpen := false;
      timerSeconds := Countdown.SessionSeconds;
      isTimerRunning := false;
    }

    /**
     * Deleting a note: it leaves the list at once, then the store; if it was
     * the open note the shell behaves as "New Entry".
     */
    method DeleteEntry(id: string, now: int, fault: bool)
      requires Valid()
      modifies this, store
      ensures Valid()
      ensures entries == RemoveId(old(entries), id)
      ensures !store.IsCloud(Scope()) ==>
        store.localEntries == Storage.GuestDeleted(old(store.localEntries), id, now)
      ensures store.IsCloud(Scope()) ==>
        var uid := Scope().value;
        store.cloudEntries == if fault then old(store.cloudEntries)
          else old(store.cloudEntries)[uid := RemoveId(old(store.Collection(uid)), id)]
      ensures !store.IsCloud(Scope()) ==> store.cloudEntries == old(store.cloudEntries)
      ensures store.IsCloud(Scope()) ==> store.localEntries == old(store.localEntries)
      ensures store.localSettings == old(store.localSettings) && store.cloudSettings == old(store.cloudSettings)
      ensures old(currentEntryId) == Some(id) ==>
        content == "" && currentEntryId == None && Timer() == Countdown.Reset()
      ensures old(currentEntryId) != Some(id) ==>
        content == old(content) && currentEntryId == old(currentEntryId) && Timer() == old(Timer())
      ensures saveStatus == old(saveStatus) && user == old(user) && settings == old(settings)
      ensures isInitialized == old(isInitialized) && initialLoadDone == old(initialLoadDone)
      ensures isHistoryOpen == old(isHistoryOpen)
    {
      RemoveIdIdempotent(entries, id);
      entries := RemoveId(entries, id);
      store.DeleteEntry(Scope(), id, now, fault);
      if currentEntryId == Some(id) {
        NewEntry();
      }
    }

    /** One interval tick of the timer. */
    method Tick()
      requires Valid()
      modifies this
      ensures Valid()
      ensures Timer() == Countdown.Tick(old(Timer()))
      ensures content == old(content) && currentEntryId == old(currentEntryId) && entries == old(entries)
      ensures saveStatus == old(saveStatus) && user == old(user) && settings == old(settings)
      ensures isInitialized == old(isInitialized) && initialLoadDone == old(initialLoadDone)
      ensures isHistoryOpen == old(isHistoryOpen)
    {
      if isTimerRunning && timerSeconds > 0 {
        if timerSeconds <= 1 {
          isTimerRunning := false;
          timerSeconds := 0;
        } else {
          timerSeconds := timerSeconds - 1;
        }
      }
    }

    /** The timer button: back to the full session, stopped. */
    method ResetTimer()
      requires Valid()
      modifies this
      ensures Valid()
      ensures Timer() == Countdown.Reset()
      ensures content == old(content) && currentEntryId == old(currentEntryId) && entries == old(entries)
      ensures saveStatus == old(saveStatus) && user == old(user) && settings == old(settings)
      ensures isInitialized == old(isInitialized) && initialLoadDone == old(initialLoadDone)
      ensures isHistoryOpen == old(isHistoryOpen)
    {
      timerSeconds := Countdown.SessionSeconds;
      isTimerRunning := false;
    }

    /** A settings control: the new settings are applied and saved for the current scope. */
    method ChangeSettings(newSettings: AppSettings, fault: bool)
      requires Valid()
      modifies this, store
      ensures Valid()
      ensures settings == newSettings && store.localSettings == Storage.StoredSettings(newSettings)
      ensures store.cloudSettings == if store.IsCloud(Scope()) && !fault
                                     then old(store.cloudSettings)[Scope().value := newSettings]
                                     else old(store.cloudSettings)
      ensures store.localEntries == old(store.localEntries) && store.cloudEntries == old(store.cloudEntries)
      ensures content == old(content) && currentEntryId == old(currentEntryId) && entries == old(entries)
      ensures saveStatus == old(saveStatus) && user == old(user) && Timer() == old(Timer())
      ensures isInitialized == old(isInitialized) && initialLoadDone == old(initialLoadDone)
      ensures isHistoryOpen == old(isHistoryOpen)
    {
      settings := newSettings;
      store.SaveSettings(Scope(), newSettings, fault);
    }

    /**
     * Mounting the shell, as written. With an authentication service the
     * state callback is subscribed and does its loading later (`Reload`).
     * Without one, the guest loader is built only as the subscription's
     * cleanup function and is not called at mount, so nothing is loaded and
     * the shell stays uninitialised: no state changes.
     */
    method Start()
      requires Valid()
      ensures Valid()
    {
    }

    /**
     * Mounting the shell as evidently intended: without an authentication
     * service the guest data is loaded at once and the shell is initialised;
     * with one, loading is left to the state callback.
     */
    method StartIntended(now: int, entriesFault: bool, settingsFault: bool)
      requires Valid()
      modifies this, store
      ensures Valid()
      ensures !authConfigured ==>
        && isInitialized && user == None
        && entries == old(Storage.GuestEntries(store.localEntries, now))
        && settings == old(store.SettingsFor(None, settingsFault))
      ensures authConfigured ==>
        && isInitialized == old(isInitialized) && user == old(user)
        && entries == old(entries) && settings == old(settings)
      ensures store.localEntries == old(store.localEntries) && store.cloudEntries == old(store.cloudEntries)
      ensures store.localSettings == old(store.localSettings) && store.cloudSettings == old(store.cloudSettings)
      ensures content == old(content) && currentEntryId == old(currentEntryId)
      ensures saveStatus == old(saveStatus) && Timer() == old(Timer())
      ensures initialLoadDone == old(initialLoadDone) && isHistoryOpen == old(isHistoryOpen)
    {
      if !authConfigured {
        Reload(None, now, entriesFault, settingsFault);
      }
    }
  }

  /**
   * Without an authentication service, as written: after mounting and any
   * number of effect runs the shell is still uninitialised (only the
   * loading spinner is shown, so there is nothing to type into), the
   * buffer has no id and no save is ever scheduled.
   */
  method StartWithoutAuth(store: Storage.Store, freshId: string)
    returns (initialised: bool, id: Option<string>, status: SaveStatus)
    requires store.Valid() && freshId != ""
    ensures !initialised && id == None && status == Saved
  {
    var editor := new Editor(store, false);
    editor.Start();
    editor.LoadInitialContent();
    editor.AutosaveEffect(freshId);
    editor.AutosaveEffect(freshId);
    initialised, id, status := editor.isInitialized, editor.currentEntryId, editor.saveStatus;
  }

  /**
   * Without an authentication service, with the intended start-up: the
   * guest data loads, typed text gets an id, the save fires, and a later
   * guest read holds the note under that id exactly once, with that text.
   */
  method StartWithoutAuthIntended(store: Storage.Store, text: string, freshId: string, now: int)
    returns (initialised: bool, id: Option<string>, status: SaveStatus, stored: seq<NoteEntry>)
    requires store.Valid() && text != "" && freshId != ""
    requires CountId(Storage.GuestEntries(store.localEntries, now), freshId) == 0
    modifies store
    ensures initialised && Truthy(id) && status == Saved
    ensures CountId(stored, id.value) == 1
    ensures Find(stored, id.value).Some? && Find(stored, id.value).value.content == text
  {
    var editor := new Editor(store, false);
    editor.StartIntended(now, false, false);
    editor.LoadInitialContent();
    editor.Edit(text);
    editor.AutosaveEffect(freshId);
    editor.AutosaveEffect(freshId);
    editor.FireSave(now, false);
    initialised, id, status := editor.isInitialized, editor.currentEntryId, editor.saveStatus;
    stored := Storage.GuestEntries(store.localEntries, now);
  }
}
