/** The landing page's form logic (client/src/pages/home.tsx): the email
    validator, the handlers of the subscription and call request forms over
    the component's state, and the rotating prompt placeholder. Each state
    setter is an assignment to a field of `HomePage`; the phone validator is
    the parameter `isValidPhone`; toasts are returned values. */
module LandingPage {
  import opened Wrappers
  import opened Text

  /** `[^\s@]` */
  predicate Plain(c: char) {
    !IsSpace(c) && c != '@'
  }

  /** `[^\s@]+` */
  predicate Part(s: string) {
    |s| > 0 && AllChars(s, Plain)
  }

  /** `validateEmail(email)`: `/^[^\s@]+@[^\s@]+\.[^\s@]+$/.test(email)`; the
      '@' sits at `i` and the chosen '.' at `j`. */
  function ValidateEmail(s: string): (r: bool)
    ensures r ==> |s| >= 5 && '@' in s
    ensures r ==> !IsSpace(s[0]) && !IsSpace(s[|s| - 1])
  {
    EdgesPlain(s);
    exists i, j :: 0 < i < j - 1 && j < |s| - 1 && EmailSplit(s, i, j)
  }

  /** An L@A.B address begins and ends with a plain character. */
  lemma EdgesPlain(s: string)
    ensures (exists i, j :: 0 < i < j - 1 && j < |s| - 1 && EmailSplit(s, i, j)) ==>
      '@' in s && Plain(s[0]) && Plain(s[|s| - 1])
  {
    if exists i, j :: 0 < i < j - 1 && j < |s| - 1 && EmailSplit(s, i, j) {
      var i, j :| 0 < i < j - 1 && j < |s| - 1 && EmailSplit(s, i, j);
      assert s[..i][0] == s[0];
      assert s[j + 1..][|s| - j - 2] == s[|s| - 1];
    }
  }

  /** `s` reads L@A.B with the '@' at `i` and the '.' at `j`. */
  predicate EmailSplit(s: string, i: int, j: int)
    requires 0 < i < j - 1 && j < |s| - 1
  {
    s[i] == '@' && s[j] == '.'
    && AllChars(s[..i], Plain) && AllChars(s[i + 1..j], Plain) && AllChars(s[j + 1..], Plain)
  }

  /** Any L@A.B built from three non-empty parts without whitespace or '@' is accepted. */
  lemma EmailFromParts(l: string, a: string, b: string)
    requires Part(l) && Part(a) && Part(b)
    ensures ValidateEmail(l + "@" + a + "." + b)
  {
    var s := l + "@" + a + "." + b;
    var i, j := |l|, |l| + 1 + |a|;
    assert s[..i] == l && s[i + 1..j] == a && s[j + 1..] == b;
    assert EmailSplit(s, i, j);
  }

  /** Every accepted email is L@A.B for three such parts. */
  lemma EmailParts(s: string) returns (l: string, a: string, b: string)
    requires ValidateEmail(s)
    ensures Part(l) && Part(a) && Part(b)
    ensures s == l + "@" + a + "." + b
  {
    var i, j :| 0 < i < j - 1 && j < |s| - 1 && EmailSplit(s, i, j);
    l, a, b := s[..i], s[i + 1..j], s[j + 1..];
    Reassemble(s, i, j);
  }

  /** Cutting out the '@' and the '.' and putting them back gives the address. */
  lemma Reassemble(s: string, i: int, j: int)
    requires 0 < i < j - 1 && j < |s| - 1 && s[i] == '@' && s[j] == '.'
    ensures s == s[..i] + "@" + s[i + 1..j] + "." + s[j + 1..]
  {
    var w := s[..i] + "@" + s[i + 1..j] + "." + s[j + 1..];
    forall k | 0 <= k < |s|
      ensures w[k] == s[k]
    {
      if k < i {
        assert w[k] == s[..i][k];
      } else if k == i {
      } else if k < j {
        assert w[k] == s[i + 1..j][k - i - 1];
      } else if k == j {
      } else {
        assert w[k] == s[j + 1..][k - j - 1];
      }
    }
  }

  /** An accepted email has exactly one '@' and no whitespace. */
  lemma ValidEmailHasOneAt(s: string)
    requires ValidateEmail(s)
    ensures '@' in s
    ensures forall k, m :: 0 <= k < m < |s| && s[k] == '@' ==> s[m] != '@'
    ensures forall k :: 0 <= k < |s| ==> !IsSpace(s[k])
  {
    var i, j :| 0 < i < j - 1 && j < |s| - 1 && EmailSplit(s, i, j);
    forall k | 0 <= k < |s| && k != i
      ensures Plain(s[k])
    {
      if k < i {
        assert s[..i][k] == s[k];
      } else if k < j {
        assert s[i + 1..j][k - i - 1] == s[k];
      } else if k > j {
        assert s[j + 1..][k - j - 1] == s[k];
      }
    }
  }

  /** A concrete accepted address, and one with a second '@' that is refused. */
  lemma EmailExamples()
    ensures ValidateEmail("a@b.co")
    ensures !ValidateEmail("a@b@c.d")
  {
    EmailFromParts("a", "b", "co");
    assert "a" + "@" + "b" + "." + "co" == "a@b.co";
    var s := "a@b@c.d";
    assert s[1] == '@' && s[3] == '@';
    if ValidateEmail(s) {
      ValidEmailHasOneAt(s);
      assert false;
    }
  }

  const PromptExamples := [
    "an agent that books appointments for my salon",
    "a friendly voice to check on my mom daily",
    "a sales agent that qualifies leads 24/7",
    "a receptionist for my medical practice",
    "a tutor that helps students practice languages"
  ]

  /** `(prev + 1) % promptExamples.length` */
  function NextPlaceholder(prev: int): (next: int)
    ensures 0 <= next < |PromptExamples|
    ensures 0 <= prev < |PromptExamples| - 1 ==> next == prev + 1
    ensures prev == |PromptExamples| - 1 ==> next == 0
  {
    (prev + 1) % |PromptExamples|
  }

  /** The placeholder after `k` ticks. */
  function Ticks(p: int, k: nat): int {
    if k == 0 then p else NextPlaceholder(Ticks(p, k - 1))
  }

  /** Starting from any example, the rotation visits the next `k` examples
      in order and comes back after exactly five ticks. */
  lemma {:induction false} PlaceholderCycles(p: int, k: nat)
    requires 0 <= p < |PromptExamples|
    ensures Ticks(p, k) == (p + k) % |PromptExamples|
  {
    if k > 0 {
      PlaceholderCycles(p, k - 1);
      ModSucc(p + k - 1);
    }
  }

  /** Taking the next index modulo five commutes with counting one more. */
  lemma ModSucc(m: nat)
    ensures (m % 5 + 1) % 5 == (m + 1) % 5
  {
    var q, r := m / 5, m % 5;
    assert m == 5 * q + r;
    if r < 4 {
      assert m + 1 == 5 * q + (r + 1);
    } else {
      assert m + 1 == 5 * (q + 1);
    }
  }

  datatype Toast = Toast(title: string, description: string, destructive: bool)

  /** What the call request form posts: the trimmed name, the phone, and `email: ""`. */
  datatype CallPayload = CallPayload(name: string, phoneNumber: string, email: string)

  const PhoneRequiredMessage := "Phone number is required"
  const PhoneInvalidMessage := "Please enter a valid phone number"
  const NameRequiredToast := Toast("Name required", "Please enter your name", true)

  /** `error.message || "Please try again later."` in a failure toast. */
  function FailureToast(title: string, message: string): (t: Toast)
    ensures t.destructive && t.title == title && t.description != ""
    ensures message != "" ==> t.description == message
  {
    Toast(title, if message != "" then message else "Please try again later.", true)
  }

  class HomePage {
    var email: string
    var isEmailValid: bool
    var isCallDialogOpen: bool
    var name: string
    var phoneNumber: string
    var phoneError: string
    var promptPlaceholder: int

    /** The placeholder always indexes an example. */
    predicate Valid()
      reads this
    {
      0 <= promptPlaceholder < |PromptExamples|
    }

    /** The initial state of every `useState`. */
    constructor()
      ensures Valid()
      ensures email == "" && isEmailValid && !isCallDialogOpen
      ensures name == "" && phoneNumber == "" && phoneError == "" && promptPlaceholder == 0
    {
      email, isEmailValid, isCallDialogOpen := "", true, false;
      name, phoneNumber, phoneError, promptPlaceholder := "", "", "", 0;
    }

    /** The interval callback: the next placeholder, wrapping round after the last. */
    method TickPlaceholder()
      requires Valid()
      modifies this`promptPlaceholder
      ensures Valid()
      ensures promptPlaceholder == NextPlaceholder(old(promptPlaceholder))
    {
      promptPlaceholder := (promptPlaceholder + 1) % |PromptExamples|;
    }

    /** `handleEmailSubmit`: validates the trimmed input; an invalid one marks
        the field invalid and submits nothing, a valid one is submitted as trimmed. */
    method HandleEmailSubmit() returns (submitted: Option<string>)
      modifies this`isEmailValid
      ensures submitted.Some? <==> ValidateEmail(Trim(email))
      ensures submitted.Some? ==> submitted.value == Trim(email)
      ensures isEmailValid <==> submitted.Some?
    {
      var trimmedEmail := Trim(email);
      if !ValidateEmail(trimmedEmail) {
        isEmailValid := false;
        return None;
      }
      isEmailValid := true;
      submitted := Some(trimmedEmail);
    }

    /** `handleEmailChange`: stores the new value and clears the invalid mark. */
    method HandleEmailChange(value: string)
      modifies this`email, this`isEmailValid
      ensures email == value && isEmailValid
    {
      email := value;
      if !isEmailValid {
        isEmailValid := true;
      }
    }

    /** The subscription's `onSuccess`: a toast telling whether the email was
        already on the list, and an emptied field. */
    method OnEmailSubscribed(alreadySubscribed: bool) returns (toast: Toast)
      modifies this`email
      ensures email == "" && !toast.destructive
      ensures toast.title == (if alreadySubscribed then "Already subscribed" else "Subscribed successfully!")
    {
      if alreadySubscribed {
        toast := Toast("Already subscribed", "This email is already on our list!", false);
      } else {
        toast := Toast("Subscribed successfully!",
                       "You'll receive updates about Ruka's performance insights and new capabilities.", false);
      }
      email := "";
    }

    /** `handleCallFormSubmit`: clears the phone error, then checks in order
        that the name is not blank, that a phone was entered and that it is
        valid, stopping at the first failure; only phone failures set the
        phone error. When all pass, it submits the trimmed name, the phone as
        entered, and an empty email. */
    method HandleCallFormSubmit(isValidPhone: string -> bool) returns (submitted: Option<CallPayload>, toast: Option<Toast>)
      modifies this`phoneError
      ensures Trim(name) == "" ==> submitted.None? && toast == Some(NameRequiredToast) && phoneError == ""
      ensures Trim(name) != "" && phoneNumber == "" ==>
        submitted.None? && toast.None? && phoneError == PhoneRequiredMessage
      ensures Trim(name) != "" && phoneNumber != "" && !isValidPhone(phoneNumber) ==>
        submitted.None? && toast.None? && phoneError == PhoneInvalidMessage
      ensures submitted.Some? <==> Trim(name) != "" && phoneNumber != "" && isValidPhone(phoneNumber)
      ensures submitted.Some? ==>
        submitted.value == CallPayload(Trim(name), phoneNumber, "") && toast.None? && phoneError == ""
    {
      phoneError := "";
      if name == "" || Trim(name) == "" {
        return None, Some(NameRequiredToast);
      }
      if phoneNumber == "" {
        phoneError := PhoneRequiredMessage;
        return None, None;
      } else if !isValidPhone(phoneNumber) {
        phoneError := PhoneInvalidMessage;
        return None, None;
      }
      submitted := Some(CallPayload(Trim(name), phoneNumber, ""));
      toast := None;
    }

    /** `handleCallFormChange(field, value)`: sets the named field (a key
        other than the two form fields is added to the object but read by
        nothing) and clears the phone error only for the phone field. */
    method HandleCallFormChange(field: string, value: string)
      modifies this`name, this`phoneNumber, this`phoneError
      ensures field == "name" ==> name == value && phoneNumber == old(phoneNumber)
      ensures field == "phoneNumber" ==> phoneNumber == value && name == old(name)
      ensures field != "name" && field != "phoneNumber" ==> name == old(name) && phoneNumber == old(phoneNumber)
      ensures phoneError == if field == "phoneNumber" then "" else old(phoneError)
    {
      if field == "name" {
        name := value;
      } else if field == "phoneNumber" {
        phoneNumber := value;
      }
      if field == "phoneNumber" {
        phoneError := "";
      }
    }

    /** The call request's `onSuccess`: the dialog closes and the form and
        phone error are emptied. */
    method OnCallRequested() returns (toast: Toast)
      modifies this`isCallDialogOpen, this`name, this`phoneNumber, this`phoneError
      ensures !isCallDialogOpen && name == "" && phoneNumber == "" && phoneError == ""
      ensures toast == Toast("Call request received!", "Ruka will call you shortly.", false)
    {
      toast := Toast("Call request received!", "Ruka will call you shortly.", false);
      isCallDialogOpen := false;
      name, phoneNumber := "", "";
      phoneError := "";
    }
  }
}
