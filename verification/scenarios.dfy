/** End-to-end runs of the pages against a fake notes service: the sign-up
    walk-through, an expired session on listing, and create/delete followed by
    the refetch they trigger. */
module Scenarios {
  import opened Effects
  import AuthFlow
  import Dashboard
  import JsText

  /** Entering the code and verifying it, from the 'otp' stage. */
  lemma VerifyTail(s: AuthFlow.AuthState, code: string, token: string)
    ensures AuthFlow.Run(AuthFlow.Signup, s, [AuthFlow.EditOtp(code), AuthFlow.VerifyOtpClicked(Ok(Some(token)))])
            == Step(s.(otp := code), [Send(VerifyOtp(s.email, code)), WriteToken(token), Navigate(DashboardPath)])
  {
    var e5 := [AuthFlow.VerifyOtpClicked(Ok(Some(token)))];
    var e4 := [AuthFlow.EditOtp(code)] + e5;
    assert e5[1..] == [];
    assert e4[1..] == e5;
    var s4 := s.(otp := code);
    var verify := [Send(VerifyOtp(s.email, code)), WriteToken(token), Navigate(DashboardPath)];
    assert Stored(Some(token)) == token;
    assert AuthFlow.Apply(AuthFlow.Signup, s4, e5[0]) == Step(s4, verify);
    assert AuthFlow.Run(AuthFlow.Signup, s4, e5[1..]) == Step(s4, []);
    var r5 := AuthFlow.Run(AuthFlow.Signup, s4, e5);
    assert r5 == Step(s4, verify + []);
    assert verify + [] == verify;
    assert AuthFlow.Run(AuthFlow.Signup, s, e4) == Step(s4, [] + r5.effects);
    assert [] + r5.effects == verify;
  }

  /** Typing the name and email and requesting the OTP, from the initial page. */
  lemma RequestHead(name: string, email: string, rest: seq<AuthFlow.Event>)
    ensures var s := AuthFlow.Initial.(name := name, email := email, step := AuthFlow.Otp);
            var tail := AuthFlow.Run(AuthFlow.Signup, s, rest);
            AuthFlow.Run(AuthFlow.Signup, AuthFlow.Initial,
                         [AuthFlow.EditName(name), AuthFlow.EditEmail(email), AuthFlow.SendOtpClicked(Ok(()))] + rest)
            == Step(tail.page, [Send(SendOtp(name, email))] + tail.effects)
  {
    var e3 := [AuthFlow.SendOtpClicked(Ok(()))] + rest;
    var e2 := [AuthFlow.EditEmail(email)] + e3;
    var e1 := [AuthFlow.EditName(name)] + e2;
    assert [AuthFlow.EditName(name), AuthFlow.EditEmail(email), AuthFlow.SendOtpClicked(Ok(()))] + rest == e1;
    assert e1[1..] == e2;
    assert e2[1..] == e3;
    assert e3[1..] == rest;
    var s3 := AuthFlow.Initial.(name := name, email := email, step := AuthFlow.Otp);
    var tail := AuthFlow.Run(AuthFlow.Signup, s3, rest);
    var r3 := AuthFlow.Run(AuthFlow.Signup, AuthFlow.Initial.(name := name, email := email), e3);
    assert r3 == Step(tail.page, [Send(SendOtp(name, email))] + tail.effects);
    var r2 := AuthFlow.Run(AuthFlow.Signup, AuthFlow.Initial.(name := name), e2);
    assert r2 == Step(r3.page, [] + r3.effects);
    assert [] + r3.effects == r3.effects;
    var r1 := AuthFlow.Run(AuthFlow.Signup, AuthFlow.Initial, e1);
    assert r1 == Step(r2.page, [] + r2.effects);
  }

  /** What the walk-through's effects amount to: two requests, the token in
      the slot, and the dashboard as the last stop. */
  lemma WalkthroughEffects(name: string, email: string, code: string, token: string, slot: Option<string>)
    ensures var all := [Send(SendOtp(name, email))] + [Send(VerifyOtp(email, code)), WriteToken(token), Navigate(DashboardPath)];
            && Requests(all) == [SendOtp(name, email), VerifyOtp(email, code)]
            && ApplyToSlot(slot, all) == Some(token)
            && all[|all| - 1] == Navigate(DashboardPath)
  {
    var verify := [Send(VerifyOtp(email, code)), WriteToken(token), Navigate(DashboardPath)];
    var all := [Send(SendOtp(name, email))] + verify;
    var tail := [WriteToken(token), Navigate(DashboardPath)];
    assert Requests(tail) == [];
    assert Requests(verify) == [VerifyOtp(email, code)] by {
      assert verify[1..] == tail;
    }
    assert all[1..] == verify;
    assert all[..|all| - 1] == [Send(SendOtp(name, email)), Send(VerifyOtp(email, code)), WriteToken(token)];
  }

  /** The sign-up walk-through, for any name, email, code and token: the OTP
      is issued, then verified, the
      returned token lands in the slot and the browser leaves for the
      dashboard. */
  lemma SignupWalkthrough(name: string, email: string, code: string, token: string, slot: Option<string>)
    ensures var events := [
              AuthFlow.EditName(name), AuthFlow.EditEmail(email),
              AuthFlow.SendOtpClicked(Ok(())),
              AuthFlow.EditOtp(code),
              AuthFlow.VerifyOtpClicked(Ok(Some(token)))];
            var r := AuthFlow.Run(AuthFlow.Signup, AuthFlow.Initial, events);
            && r.page.step == AuthFlow.Otp
            && Requests(r.effects) == [SendOtp(name, email), VerifyOtp(email, code)]
            && ApplyToSlot(slot, r.effects) == Some(token)
            && r.effects[|r.effects| - 1] == Navigate(DashboardPath)
  {
    var s3 := AuthFlow.Initial.(name := name, email := email, step := AuthFlow.Otp);
    var rest := [AuthFlow.EditOtp(code), AuthFlow.VerifyOtpClicked(Ok(Some(token)))];
    VerifyTail(s3, code, token);
    RequestHead(name, email, rest);
    WalkthroughEffects(name, email, code, token, slot);
    var head := [AuthFlow.EditName(name), AuthFlow.EditEmail(email), AuthFlow.SendOtpClicked(Ok(()))];
    assert head + rest == [
              AuthFlow.EditName(name), AuthFlow.EditEmail(email),
              AuthFlow.SendOtpClicked(Ok(())),
              AuthFlow.EditOtp(code),
              AuthFlow.VerifyOtpClicked(Ok(Some(token)))];
  }

  /** The service answers the listing with "jwt expired": the message is shown
      and the session is not cleared. */
  lemma ExpiredSessionIsOnlyReported(s: Dashboard.DashState, slot: Option<string>)
    ensures var r := Dashboard.FetchNotes(s, Err(Some("jwt expired")));
            r.page.error == "jwt expired" && r.page.notes == s.notes && ApplyToSlot(slot, r.effects) == slot
  {
  }

  /** A stand-in for the note storage service: the stored notes, in the order
      it returns them, and the next identifier it hands out. */
  datatype FakeService = FakeService(stored: seq<Note>, nextId: nat)

  type Note = Dashboard.Note

  /** `POST /api/notes`: appends a fresh note with the posted content. */
  function Create(svc: FakeService, content: string): (r: FakeService)
    ensures |r.stored| == |svc.stored| + 1 && r.stored[..|svc.stored|] == svc.stored
    ensures r.stored[|svc.stored|].content == content
  {
    FakeService(svc.stored + [Dashboard.Note(IdOf(svc.nextId), content, "")], svc.nextId + 1)
  }

  /** `DELETE /api/notes/{id}`: removes every stored note with that id. */
  function Delete(svc: FakeService, id: string): (r: FakeService)
    ensures forall n :: n in r.stored <==> n in svc.stored && n.id != id
    decreases |svc.stored|
  {
    if |svc.stored| == 0 then svc
    else
      var rest := Delete(svc.(stored := svc.stored[1..]), id);
      assert forall n :: n in svc.stored <==> n == svc.stored[0] || n in svc.stored[1..];
      if svc.stored[0].id == id then rest
      else rest.(stored := [svc.stored[0]] + rest.stored)
  }

  /** A decimal rendering of a counter, used as a note id. */
  function IdOf(n: nat): string
    decreases n
  {
    var digit := ['0' + (n % 10) as char];
    if n < 10 then digit else IdOf(n / 10) + digit
  }

  /** Creating a non-blank note and answering the refetch it triggers from the
      service shows the new note and empties the input. */
  lemma CreatedNoteAppearsAfterRefetch(s: Dashboard.DashState, svc: FakeService)
    requires !JsText.IsBlank(s.newNote)
    ensures var added := Dashboard.AddNote(s, Ok(()));
            var shown := Dashboard.FetchNotes(added.page, Ok(Create(svc, s.newNote).stored)).page;
            && added.effects[|added.effects| - 1] == Refetch
            && shown.newNote == ""
            && (exists i :: 0 <= i < |shown.notes| && shown.notes[i].content == s.newNote)
  {
  }

  /** Deleting a note and answering the refetch from the service no longer
      shows any note with that id; the input is kept. */
  lemma DeletedNoteGoneAfterRefetch(s: Dashboard.DashState, svc: FakeService, id: string)
    ensures var deleted := Dashboard.DeleteNote(s, id, Ok(()));
            var shown := Dashboard.FetchNotes(deleted.page, Ok(Delete(svc, id).stored)).page;
            && deleted.effects[|deleted.effects| - 1] == Refetch
            && shown.newNote == s.newNote
            && forall n :: n in shown.notes ==> n.id != id
  {
  }
}
