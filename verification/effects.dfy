/** Values shared by every page: the outcome of a service call, the requests a
    handler dispatches, and the effects it has outside its own page state (the
    token slot kept in browser storage, full-page navigation, a note refetch). */
module Effects {

  datatype Option<+T> = None | Some(value: T)

  /** How a remote call settled: the response body, or a rejection carrying the
      `message` field of the error response, when there was one. */
  datatype Outcome<+T> = Ok(payload: T) | Err(message: Option<string>)

  /** The HTTP requests the pages send to the identity and notes services. The note
      requests carry the literal `Authorization` header value. */
  datatype Request =
    | SendOtp(name: string, email: string)
    | VerifyOtp(email: string, otp: string)
    | GoogleLogin(credential: string)
    | ListNotes(authorization: string)
    | CreateNote(authorization: string, content: string)
    | DeleteNote(authorization: string, id: string)

  /** What a handler does besides changing its page state. `Refetch` is the
      un-awaited call to the notes fetch that follows a successful mutation. */
  datatype Effect =
    | Send(request: Request)
    | WriteToken(value: string)
    | ClearToken
    | Navigate(path: string)
    | Refetch

  /** Result of a handler run to completion: the new page state and the effects
      it produced, in order. */
  datatype Step<+S> = Step(page: S, effects: seq<Effect>)

  const DashboardPath := "/dashboard"
  const EntryPath := "/"

  predicate TouchesSlot(e: Effect) {
    e.WriteToken? || e.ClearToken?
  }

  /** The requests among `effects`, in the order they are sent (see
      `RequestsAppend`). */
  function Requests(effects: seq<Effect>): (rs: seq<Request>)
    ensures |rs| <= |effects|
    ensures forall q :: q in rs <==> Send(q) in effects
    ensures |effects| > 0 && effects[0].Send? ==> rs == [effects[0].request] + Requests(effects[1..])
  {
    if |effects| == 0 then []
    else
      var rest := Requests(effects[1..]);
      assert forall e :: e in effects <==> e == effects[0] || e in effects[1..];
      if effects[0].Send? then [effects[0].request] + rest else rest
  }

  /** The requests of two effect lists run one after the other are those of
      the first followed by those of the second. */
  lemma {:induction false} RequestsAppend(a: seq<Effect>, b: seq<Effect>)
    ensures Requests(a + b) == Requests(a) + Requests(b)
    decreases |a|
  {
    if |a| > 0 {
      assert (a + b)[1..] == a[1..] + b;
      RequestsAppend(a[1..], b);
    } else {
      assert a + b == b;
    }
  }

  /** No effect after position `i` touches the slot. */
  predicate NoTouchAfter(effects: seq<Effect>, i: nat) {
    forall j :: i < j < |effects| ==> !TouchesSlot(effects[j])
  }

  /** The token slot after the effects are applied in order to `slot`. */
  function ApplyToSlot(slot: Option<string>, effects: seq<Effect>): (r: Option<string>)
    ensures (forall e :: e in effects ==> !TouchesSlot(e)) ==> r == slot
    ensures (slot.Some? && forall e :: e in effects ==> !e.ClearToken?) ==> r.Some?
    ensures |effects| > 0 && effects[|effects| - 1].ClearToken? ==> r == None
    ensures |effects| > 0 && effects[|effects| - 1].WriteToken? ==> r == Some(effects[|effects| - 1].value)
  {
    if |effects| == 0 then slot
    else
      var init := effects[..|effects| - 1];
      assert forall e :: e in init ==> e in effects;
      var before := ApplyToSlot(slot, init);
      assert effects[|effects| - 1] in effects;
      match effects[|effects| - 1]
      case WriteToken(v) => Some(v)
      case ClearToken => None
      case _ => before
  }

  /** The slot ends up as the last effect that touches it left it: the token
      it wrote, or empty after a clear, whatever follows that does not touch
      the slot (the navigation after a sign-in, say). */
  lemma {:induction false} LastTouchDecides(slot: Option<string>, effects: seq<Effect>, i: nat)
    requires i < |effects| && TouchesSlot(effects[i]) && NoTouchAfter(effects, i)
    ensures ApplyToSlot(slot, effects) == if effects[i].WriteToken? then Some(effects[i].value) else None
    decreases |effects|
  {
    var last := |effects| - 1;
    if i < last {
      var init := effects[..last];
      assert !TouchesSlot(effects[last]);
      assert ApplyToSlot(slot, effects) == ApplyToSlot(slot, init);
      assert init[i] == effects[i];
      assert NoTouchAfter(init, i) by {
        forall j | i < j < |init| ensures !TouchesSlot(init[j]) {
          assert init[j] == effects[j];
        }
      }
      LastTouchDecides(slot, init, i);
    }
  }

  /** `err.response?.data?.message || fallback`: a present, non-empty server
      message wins; otherwise the per-operation fallback. */
  function ServerMessageOr(message: Option<string>, fallback: string): (r: string)
    ensures message.Some? && message.value != "" ==> r == message.value
    ensures message.None? || message.value == "" ==> r == fallback
    ensures fallback != "" ==> r != ""
  {
    match message
    case Some(m) => if m != "" then m else fallback
    case None => fallback
  }

  /** The string `localStorage.setItem` stores for a reply's `token` field:
      an absent field is stringified to "undefined". */
  function Stored(token: Option<string>): (r: string)
    ensures token.Some? ==> r == token.value
    ensures token.None? ==> r == "undefined"
  {
    match token
    case Some(t) => t
    case None => "undefined"
  }

  /** The template literal `Bearer ${token}`: a missing token prints as "null". */
  function Bearer(token: Option<string>): (r: string)
    ensures |r| >= 7 && r[..7] == "Bearer "
    ensures token.Some? ==> r[7..] == token.value
    ensures token.None? ==> r[7..] == "null"
  {
    "Bearer " + match token case Some(t) => t case None => "null"
  }
}
