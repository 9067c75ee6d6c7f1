/** The WhatsApp notification helpers: the destination number handed to the
    messaging service and the reminder text sent for an installment. */
module WhatsApp {
  import opened Text
  import Currency

  /** The number as sent: its digits, with Brazil's country code 55 put in
      front when exactly eleven digits (area code and mobile number) remain. */
  function NormalizePhone(phone: string): (r: string)
    ensures AllDigits(r)
  {
    var d := Digits(phone);
    if |d| == 11 then "55" + d else d
  }

  /** The country code is added exactly when the digits number eleven, and
      the rest of the number is the digits of the input, in order. */
  lemma NormalizePhoneShape(phone: string)
    ensures |Digits(phone)| == 11 ==> NormalizePhone(phone) == "55" + Digits(phone)
    ensures |Digits(phone)| != 11 ==> NormalizePhone(phone) == Digits(phone)
    ensures |NormalizePhone(phone)| == |Digits(phone)| + 2 <==> |Digits(phone)| == 11
  {
  }

  /** Normalising a normalised number changes nothing: an eleven-digit
      number becomes thirteen digits and is not prefixed again. */
  lemma NormalizePhoneIdempotent(phone: string)
    ensures NormalizePhone(NormalizePhone(phone)) == NormalizePhone(phone)
  {
    var r := NormalizePhone(phone);
    DigitsOfDigits(r);
  }

  /** The `to` address of the outgoing message. */
  function Destination(phone: string): string
  {
    "whatsapp:+" + NormalizePhone(phone)
  }

  /** The address carries exactly the normalised digits: the fixed
      "whatsapp:+" prefix holds no digit. */
  lemma DestinationDigits(phone: string)
    ensures Digits(Destination(phone)) == NormalizePhone(phone)
  {
    var prefix := "whatsapp:+";
    var r := NormalizePhone(phone);
    DigitsConcat(prefix, r);
    DigitsOfDigits(r);
    assert Digits(prefix) == [] by {
      assert forall i :: 0 <= i < |prefix| ==> !IsDigit(prefix[i]);
      NoDigits(prefix);
    }
  }

  lemma {:induction false} NoDigits(s: string)
    requires forall i :: 0 <= i < |s| ==> !IsDigit(s[i])
    ensures Digits(s) == []
  {
    if s != [] {
      NoDigits(s[1..]);
    }
  }

  /** The reminder text: greeting by name, the installment number, the
      amount in reais formatted for pt-BR, the due date as already rendered
      by the caller, and the closing lines. */
  function FormatInstallmentNotification(clientName: string, installmentNumber: int,
                                         amount: int, dueDate: string): string
  {
    Greeting(clientName) + Reminder(installmentNumber) + Currency.FormatBrl(amount) + Closing(dueDate)
  }

  function Greeting(clientName: string): string
  {
    "Olá " + clientName + "! \U{1F44B}\n\n"
  }

  function Reminder(installmentNumber: int): string
  {
    "Lembramos que a parcela " + ("#" + IntToString(installmentNumber)) + " de "
  }

  function Closing(dueDate: string): string
  {
    " vence amanhã (" + dueDate + ").\n\nFavor realizar o pagamento para evitar atrasos.\n\nObrigado! \U{1F64F}"
  }

  /** The message greets the client by name. */
  lemma NotificationNamesClient(clientName: string, installmentNumber: int, amount: int, dueDate: string)
    ensures Contains(FormatInstallmentNotification(clientName, installmentNumber, amount, dueDate), clientName)
  {
    var g, r, b, c := Greeting(clientName), Reminder(installmentNumber), Currency.FormatBrl(amount), Closing(dueDate);
    ContainsMiddle("Olá ", clientName, "! \U{1F44B}\n\n");
    ContainsExtended(g, r, clientName);
    ContainsExtended(g + r, b, clientName);
    ContainsExtended(g + r + b, c, clientName);
  }

  /** The message carries the installment number after a "#". */
  lemma NotificationNamesInstallment(clientName: string, installmentNumber: int, amount: int, dueDate: string)
    ensures Contains(FormatInstallmentNotification(clientName, installmentNumber, amount, dueDate),
                     "#" + IntToString(installmentNumber))
  {
    var g, r, b, c := Greeting(clientName), Reminder(installmentNumber), Currency.FormatBrl(amount), Closing(dueDate);
    var tag := "#" + IntToString(installmentNumber);
    ContainsMiddle("Lembramos que a parcela ", tag, " de ");
    ContainsPrefixed(g, r, tag);
    ContainsExtended(g + r, b, tag);
    ContainsExtended(g + r + b, c, tag);
  }

  /** The message carries the amount formatted as Brazilian reais. */
  lemma NotificationNamesAmount(clientName: string, installmentNumber: int, amount: int, dueDate: string)
    ensures Contains(FormatInstallmentNotification(clientName, installmentNumber, amount, dueDate),
                     Currency.FormatBrl(amount))
  {
    ContainsMiddle(Greeting(clientName) + Reminder(installmentNumber), Currency.FormatBrl(amount), Closing(dueDate));
  }

  /** The message carries the due date as rendered by the caller. */
  lemma NotificationNamesDueDate(clientName: string, installmentNumber: int, amount: int, dueDate: string)
    ensures Contains(FormatInstallmentNotification(clientName, installmentNumber, amount, dueDate), dueDate)
  {
    var g, r, b := Greeting(clientName), Reminder(installmentNumber), Currency.FormatBrl(amount);
    ContainsMiddle(" vence amanhã (", dueDate, ").\n\nFavor realizar o pagamento para evitar atrasos.\n\nObrigado! \U{1F64F}");
    ContainsPrefixed(g + r + b, Closing(dueDate), dueDate);
  }
}
