/** The client dialog (client/src/pages/Clients.tsx): the phone mask applied
    on every keystroke, the save checks and payload, and the fields loaded
    when a client is opened for editing. */
module ClientForm {
  import opened Wrappers
  import opened Schema
  import opened Text

  // ---------------------------------------------------------------------
  // Phone mask
  // ---------------------------------------------------------------------

  function Min(a: int, b: int): int
  {
    if a <= b then a else b
  }

  /** `formatPhoneInput`: the digits of the input, masked by their number
      `n`: as they are up to 2, "(DD) rest" up to 6, "(DD) XXXX-rest" up to
      10, and "(DD) XXXXX-XXXX" from 11 on, dropping digits beyond 11. */
  function FormatPhoneInput(value: string): (r: string)
    ensures Digits(r) == Digits(value)[..Min(|Digits(value)|, 11)]
  {
    var c := Digits(value);
    var n := |c|;
    if n <= 2 then
      DigitsOfDigits(c);
      c
    else if n <= 6 then
      MaskDigits("(", c[..2], ") ", c[2..]);
      "(" + c[..2] + ") " + c[2..]
    else if n <= 10 then
      MaskDigits3(c[..2], c[2..6], c[6..]);
      "(" + c[..2] + ") " + c[2..6] + "-" + c[6..]
    else
      MaskDigits3(c[..2], c[2..7], c[7..11]);
      "(" + c[..2] + ") " + c[2..7] + "-" + c[7..11]
  }

  /** Punctuation around digit groups adds no digits. */
  lemma MaskDigits(open: string, a: string, close: string, b: string)
    requires AllDigits(a) && AllDigits(b)
    requires Digits(open) == [] && Digits(close) == []
    ensures Digits(open + a + close + b) == a + b
  {
    var oa := open + a;
    DigitsConcat(open, a);
    DigitsOfDigits(a);
    assert Digits(oa) == a;
    var oac := oa + close;
    DigitsConcat(oa, close);
    assert Digits(oac) == a;
    DigitsConcat(oac, b);
    DigitsOfDigits(b);
    assert open + a + close + b == oac + b;
  }

  lemma MaskDigits3(a: string, b: string, c: string)
    requires AllDigits(a) && AllDigits(b) && AllDigits(c)
    ensures Digits("(" + a + ") " + b + "-" + c) == a + b + c
  {
    MaskPunctuation();
    MaskDigitsThree("(", a, ") ", b, "-", c);
  }

  /** The mask's parentheses, space and dash are not digits. */
  lemma MaskPunctuation()
    ensures Digits("(") == [] && Digits(") ") == [] && Digits("-") == []
  {
    assert "("[1..] == [] && "-"[1..] == [];
    assert ") "[1..] == " " && " "[1..] == [];
  }

  lemma MaskDigitsThree(open: string, a: string, close: string, b: string, dash: string, c: string)
    requires AllDigits(a) && AllDigits(b) && AllDigits(c)
    requires Digits(open) == [] && Digits(close) == [] && Digits(dash) == []
    ensures Digits(open + a + close + b + dash + c) == a + b + c
  {
    var x := open + a + close + b;
    MaskDigits(open, a, close, b);
    DigitsConcat(x, dash);
    assert Digits(x + dash) == a + b;
    DigitsConcat(x + dash, c);
    DigitsOfDigits(c);
  }

  /** Masking an already masked number changes nothing, so re-applying the
      mask on every keystroke is harmless. */
  lemma FormatPhoneIdempotent(value: string)
    ensures FormatPhoneInput(FormatPhoneInput(value)) == FormatPhoneInput(value)
  {
    var c := Digits(value);
    var c2 := Digits(FormatPhoneInput(value));
    assert c2 == c[..Min(|c|, 11)];
    if |c| > 11 {
      assert c2[..2] == c[..2] && c2[2..7] == c[2..7] && c2[7..11] == c[7..11];
    } else {
      assert c2 == c;
    }
  }

  // ---------------------------------------------------------------------
  // Saving
  // ---------------------------------------------------------------------

  datatype ClientFormData = ClientFormData(name: string, phone: string, notes: string, whatsappEnabled: bool)

  datatype SaveError = NameRequired | PhoneRequired

  /** The body of the create and update requests. */
  datatype ClientPayload = ClientPayload(name: string, phone: Option<string>, notes: string, whatsappEnabled: int)

  datatype SaveAction = CreateClient(payload: ClientPayload) | UpdateClient(id: int, payload: ClientPayload)

  /** `handleSaveClient`: an empty name is refused first, then WhatsApp
      without a phone; otherwise an update when editing a client with a
      (non-zero) id, a creation otherwise. The phone "" is sent as null and
      the WhatsApp switch as 1/0. */
  function SaveClient(form: ClientFormData, isEditMode: bool, editingId: Option<int>): Result<SaveAction, SaveError>
  {
    if form.name == "" then Err(NameRequired)
    else if form.whatsappEnabled && form.phone == "" then Err(PhoneRequired)
    else
      var payload := ClientPayload(
        form.name,
        if form.phone == "" then None else Some(form.phone),
        form.notes,
        if form.whatsappEnabled then 1 else 0);
      if isEditMode && editingId.Some? && editingId.value != 0 then Ok(UpdateClient(editingId.value, payload))
      else Ok(CreateClient(payload))
  }

  /** The checks in order, and what an accepted save sends. */
  lemma SaveClientRules(form: ClientFormData, isEditMode: bool, editingId: Option<int>)
    ensures SaveClient(form, isEditMode, editingId) == Err(NameRequired) <==> form.name == ""
    ensures SaveClient(form, isEditMode, editingId) == Err(PhoneRequired) <==>
      form.name != "" && form.whatsappEnabled && form.phone == ""
    ensures SaveClient(form, isEditMode, editingId).Ok? ==>
      var a := SaveClient(form, isEditMode, editingId).value;
      a.payload.name == form.name && a.payload.notes == form.notes &&
      (a.payload.phone.None? <==> form.phone == "") &&
      (a.payload.whatsappEnabled == 1 <==> form.whatsappEnabled) &&
      (a.payload.whatsappEnabled == 0 <==> !form.whatsappEnabled) &&
      (a.UpdateClient? <==> isEditMode && editingId.Some? && editingId.value != 0)
  {
  }

  // ---------------------------------------------------------------------
  // Opening the dialog
  // ---------------------------------------------------------------------

  datatype DialogState = DialogState(form: ClientFormData, isEditMode: bool, editingId: Option<int>)

  /** `handleOpenDialog`: a client's fields with null phone and notes as ""
      and the flag 1 as true; an empty form when no client is given. */
  function OpenDialog(client: Option<Client>): DialogState
  {
    match client
    case Some(c) =>
      DialogState(ClientFormData(c.name, c.phone.GetOr(""), c.notes.GetOr(""), c.whatsappEnabled == 1), true, Some(c.id))
    case None =>
      DialogState(ClientFormData("", "", "", false), false, None)
  }

  /** Opening a client and saving without changes updates that client with
      its own fields, normalised: an empty phone becomes null, null notes
      become "", and a WhatsApp flag other than 1 becomes 0. */
  lemma OpenThenSave(c: Client)
    requires c.name != "" && c.id != 0
    requires c.whatsappEnabled == 1 ==> c.phone.Some? && c.phone.value != ""
    ensures var d := OpenDialog(Some(c));
      SaveClient(d.form, d.isEditMode, d.editingId) ==
        Ok(UpdateClient(c.id, ClientPayload(
          c.name,
          if c.phone == Some("") then None else c.phone,
          c.notes.GetOr(""),
          if c.whatsappEnabled == 1 then 1 else 0)))
  {
  }

  /** Saving a new, empty form is refused for the missing name. */
  lemma EmptyFormRefused()
    ensures var d := OpenDialog(None);
      SaveClient(d.form, d.isEditMode, d.editingId) == Err(NameRequired)
  {
  }
}
