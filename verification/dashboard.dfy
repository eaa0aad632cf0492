/** The dashboard: the session guard run on mount, the notes client (list,
    create, delete, each followed by a full refetch rather than a local patch),
    logout, and the page's error line. */
module Dashboard {
  import opened Effects
  import opened Session
  import JsText

  datatype Note = Note(id: string, content: string, createdAt: string)

  /** One mounted dashboard: the token and claims read from the slot, and its
      state hooks. The page re-reads the slot on every render; nothing on the
      page writes it before logout, so every read gives the value of the first
      one, which is what `token` and `user` hold. */
  datatype DashState = DashState(token: Option<string>, user: JsValue, notes: seq<Note>, newNote: string, error: string)

  const FetchFailed := "Failed to fetch notes"
  const AddFailed := "Failed to add note"
  const DeleteFailed := "Failed to delete note"

  /** The first render: the slot is read and decoded. */
  function Render(slot: Option<string>, decodePayload: PayloadDecoder): (s: DashState)
    ensures s.token == slot && s.user == UserOf(slot, decodePayload)
    ensures s.notes == [] && s.newNote == "" && s.error == ""
  {
    DashState(slot, UserOf(slot, decodePayload), [], "", "")
  }

  /** The guard's test, `!(!token || !user)`. */
  predicate Admitted(s: DashState) {
    s.token.Some? && s.token.value != "" && Truthy(s.user)
  }

  /** The mount effect: leave for the entry page, or fetch the notes once. */
  function Mount(s: DashState): (r: Step<DashState>)
    ensures r.page == s
    ensures Admitted(s) ==> r.effects == [Refetch]
    ensures !Admitted(s) ==> r.effects == [Navigate(EntryPath)]
  {
    if s.token.None? || s.token.value == "" || !Truthy(s.user) then Step(s, [Navigate(EntryPath)])
    else Step(s, [Refetch])
  }

  /** The guard admits a stored token exactly when it is non-empty and its
      payload decodes to a truthy value. */
  lemma GuardAdmitsIff(slot: Option<string>, decodePayload: PayloadDecoder)
    ensures Mount(Render(slot, decodePayload)).effects == [Refetch]
            <==> slot.Some? && slot.value != "" && Truthy(DecodeToken(slot.value, decodePayload))
    ensures Mount(Render(slot, decodePayload)).effects != [Refetch]
            ==> Mount(Render(slot, decodePayload)).effects == [Navigate(EntryPath)]
  {
  }

  /** No signature check: any three-segment token whose middle segment decodes
      to a truthy value gets in, whatever its signature. */
  lemma GuardAcceptsUnsignedToken(header: string, payload: string, signature: string, decodePayload: PayloadDecoder)
    requires '.' !in header && '.' !in payload && '.' !in signature
    requires decodePayload(payload).Some? && Truthy(decodePayload(payload).value)
    ensures Mount(Render(Some(header + "." + payload + "." + signature), decodePayload)).effects == [Refetch]
  {
    assert header + "." + payload + "." + signature == header + "." + payload + ("." + signature);
    UnsignedPayloadDecodes(header, payload, "." + signature, decodePayload);
  }

  /** A sign-in reply without a `token` field stores "undefined", which has no
      payload segment: the dashboard then sends the user back to the entry page. */
  lemma MissingReplyTokenIsRejected(decodePayload: PayloadDecoder)
    ensures Mount(Render(Some(Stored(None)), decodePayload)).effects == [Navigate(EntryPath)]
  {
    assert '.' !in Stored(None);
  }

  /** `fetchNotes`: the listing replaces the notes verbatim; a failure keeps
      them and reports. The request goes out even when no token was stored. */
  function FetchNotes(s: DashState, listed: Outcome<seq<Note>>): (r: Step<DashState>)
    ensures r.effects == [Send(ListNotes(Bearer(s.token)))]
    ensures s.token.None? ==> r.effects == [Send(ListNotes("Bearer null"))]
    ensures listed.Ok? ==> r.page == s.(notes := listed.payload)
    ensures listed.Err? ==> r.page == s.(error := ServerMessageOr(listed.message, FetchFailed)) && r.page.error != ""
  {
    var effects := [Send(ListNotes(Bearer(s.token)))];
    assert s.token.None? ==> Bearer(s.token) == "Bearer null";
    match listed
    case Ok(notes) => Step(s.(notes := notes), effects)
    case Err(m) => Step(s.(error := ServerMessageOr(m, FetchFailed)), effects)
  }

  /** `addNote`: blank input does nothing at all; otherwise the untrimmed input
      is posted. Success clears the input and refetches; failure keeps the
      input for a retry and reports. */
  function AddNote(s: DashState, added: Outcome<()>): (r: Step<DashState>)
    ensures JsText.IsBlank(s.newNote) ==> r == Step(s, [])
    ensures !JsText.IsBlank(s.newNote) ==>
              && |r.effects| > 0
              && r.effects[0] == Send(CreateNote(Bearer(s.token), s.newNote))
              && Requests(r.effects) == [CreateNote(Bearer(s.token), s.newNote)]
    ensures !JsText.IsBlank(s.newNote) && added.Ok? ==>
              r.page == s.(newNote := "") && r.effects[1..] == [Refetch]
    ensures !JsText.IsBlank(s.newNote) && added.Err? ==>
              && r.page == s.(error := ServerMessageOr(added.message, AddFailed))
              && r.page.error != ""
              && |r.effects| == 1
  {
    if JsText.Trim(s.newNote) == [] then Step(s, [])
    else
      var send := Send(CreateNote(Bearer(s.token), s.newNote));
      match added
      case Ok(_) =>
        assert [send, Refetch][1..] == [Refetch];
        Step(s.(newNote := ""), [send, Refetch])
      case Err(m) => Step(s.(error := ServerMessageOr(m, AddFailed)), [send])
  }

  /** `deleteNote`: success only refetches (no local removal); failure keeps
      the notes and reports. */
  function DeleteNote(s: DashState, id: string, deleted: Outcome<()>): (r: Step<DashState>)
    ensures |r.effects| > 0 && r.effects[0] == Send(Request.DeleteNote(Bearer(s.token), id))
    ensures Requests(r.effects) == [Request.DeleteNote(Bearer(s.token), id)]
    ensures deleted.Ok? ==> r.page == s && r.effects[1..] == [Refetch]
    ensures deleted.Err? ==>
              && r.page == s.(error := ServerMessageOr(deleted.message, DeleteFailed))
              && r.page.error != ""
              && |r.effects| == 1
  {
    var send := Send(Request.DeleteNote(Bearer(s.token), id));
    match deleted
    case Ok(_) =>
      assert [send, Refetch][1..] == [Refetch];
      Step(s, [send, Refetch])
    case Err(m) => Step(s.(error := ServerMessageOr(m, DeleteFailed)), [send])
  }

  /** The logout button: empties the slot and leaves for the entry page,
      whatever the slot held, without any request. */
  function Logout(s: DashState): (r: Step<DashState>)
    ensures r.page == s
    ensures Requests(r.effects) == []
    ensures forall slot :: ApplyToSlot(slot, r.effects) == None
    ensures |r.effects| > 0 && r.effects[|r.effects| - 1] == Navigate(EntryPath)
  {
    Step(s, [ClearToken, Navigate(EntryPath)])
  }

  datatype Event =
    | Typed(text: string)
    | AddClicked(added: Outcome<()>)
    | DeleteClicked(id: string, deleted: Outcome<()>)
    | NotesListed(listed: Outcome<seq<Note>>)
    | LogoutClicked

  /** A create or delete the service accepted (a blank add sends nothing). */
  predicate MutationSucceeded(s: DashState, e: Event) {
    || (e.AddClicked? && e.added.Ok? && !JsText.IsBlank(s.newNote))
    || (e.DeleteClicked? && e.deleted.Ok?)
  }

  /** The notes shown after `e`, given the notes shown before it. */
  function Listed(notes: seq<Note>, e: Event): seq<Note> {
    if e.NotesListed? && e.listed.Ok? then e.listed.payload else notes
  }

  function Apply(s: DashState, e: Event): (r: Step<DashState>)
    ensures r.page.token == s.token && r.page.user == s.user
    ensures r.page.notes == Listed(s.notes, e)
    ensures r.page.error == s.error || r.page.error != ""
    ensures e.Typed? ==> r == Step(s.(newNote := e.text), [])
  {
    match e
    case Typed(text) => Step(s.(newNote := text), [])
    case AddClicked(o) => AddNote(s, o)
    case DeleteClicked(id, o) => DeleteNote(s, id, o)
    case NotesListed(o) => FetchNotes(s, o)
    case LogoutClicked => Logout(s)
  }

  /** A refetch follows exactly the mutations the service accepted; only
      logout clears the slot, and nothing on the page writes it. */
  lemma ApplyEffects(s: DashState, e: Event)
    ensures Refetch in Apply(s, e).effects <==> MutationSucceeded(s, e)
    ensures forall x :: x in Apply(s, e).effects ==> !x.WriteToken?
    ensures ClearToken in Apply(s, e).effects <==> e.LogoutClicked?
  {
  }

  function Run(s: DashState, events: seq<Event>): (r: Step<DashState>)
    decreases |events|
  {
    if |events| == 0 then Step(s, [])
    else
      var first := Apply(s, events[0]);
      var rest := Run(first.page, events[1..]);
      Step(rest.page, first.effects + rest.effects)
  }

  /** Once the error line shows something, nothing on the page blanks it. */
  lemma {:induction false} ErrorNeverCleared(s: DashState, events: seq<Event>)
    requires s.error != ""
    ensures Run(s, events).page.error != ""
    decreases |events|
  {
    if |events| > 0 {
      ErrorNeverCleared(Apply(s, events[0]).page, events[1..]);
    }
  }

  /** The notes of the latest successful listing in `events`, or `notes` when
      there is none. */
  function LatestListing(notes: seq<Note>, events: seq<Event>): seq<Note>
    decreases |events|
  {
    if |events| == 0 then notes
    else
      var last := events[|events| - 1];
      if last.NotesListed? && last.listed.Ok? then last.listed.payload
      else LatestListing(notes, events[..|events| - 1])
  }

  lemma {:induction false} LatestListingCons(notes: seq<Note>, e: Event, events: seq<Event>)
    ensures LatestListing(notes, [e] + events) == LatestListing(Listed(notes, e), events)
    decreases |events|
  {
    if |events| > 0 {
      assert ([e] + events)[..|[e] + events| - 1] == [e] + events[..|events| - 1];
      LatestListingCons(notes, e, events[..|events| - 1]);
    }
  }

  /** The list on screen is always what the service last listed (or the list
      the page started with): mutations never patch it locally. */
  lemma {:induction false} NotesAreLatestListing(s: DashState, events: seq<Event>)
    ensures Run(s, events).page.notes == LatestListing(s.notes, events)
    decreases |events|
  {
    if |events| > 0 {
      var first := Apply(s, events[0]);
      NotesAreLatestListing(first.page, events[1..]);
      LatestListingCons(s.notes, events[0], events[1..]);
      assert [events[0]] + events[1..] == events;
    }
  }

  /** Only logout touches the token slot: a run without it leaves the slot as
      it was. */
  lemma {:induction false} SlotKeptWithoutLogout(s: DashState, events: seq<Event>, slot: Option<string>)
    requires forall i :: 0 <= i < |events| ==> !events[i].LogoutClicked?
    ensures forall x :: x in Run(s, events).effects ==> !TouchesSlot(x)
    ensures ApplyToSlot(slot, Run(s, events).effects) == slot
    decreases |events|
  {
    if |events| > 0 {
      var first := Apply(s, events[0]);
      assert !events[0].LogoutClicked?;
      assert forall i :: 0 <= i < |events[1..]| ==> !events[1..][i].LogoutClicked? by {
        forall i | 0 <= i < |events[1..]| ensures !events[1..][i].LogoutClicked? {
          assert events[1..][i] == events[i + 1];
        }
      }
      ApplyEffects(s, events[0]);
      SlotKeptWithoutLogout(first.page, events[1..], slot);
    }
  }
}
