/** The checks the form handlers make before any call to the backend:
    sign-up, the e-mail verification code, image and avatar URLs, and the
    minimum length of a search term. A refused input never reaches the
    backend: the handler only shows the message. */
module Validation {

  import opened Outcomes
  import opened JsText

  const MinPasswordLength := 6
  const TokenLength := 6
  const MinSearchLength := 2

  const PasswordMismatchMessage := "Passwords do not match!"
  const PasswordTooShortMessage := "Password must be at least 6 characters long"
  const IncompleteCodeMessage := "Please enter the complete 6-digit code"
  const MissingUrlMessage := "Please enter an image URL"
  const BadSchemeMessage := "URL must start with http:// or https://"

  /** The fields of the sign-up form. */
  datatype SignupForm = SignupForm(firstName: string, lastName: string, dob: string, phone: string,
                                   email: string, password: string, confirmPassword: string)

  /** What `signUp` is called with: the e-mail, the password and the names
      stored as user metadata. */
  datatype SignupRequest = SignupRequest(email: string, password: string, firstName: string, lastName: string)

  /** `handleSignup` up to the backend call. The two passwords are compared
      before the length is looked at, so a mismatch is reported even for a
      short password; a request is made only for matching passwords of at
      least six characters, and it carries exactly the form's values. */
  function Signup(form: SignupForm): (r: Submission<SignupRequest>)
    ensures r.Submit? <==> form.password == form.confirmPassword && |form.password| >= MinPasswordLength
    ensures form.password != form.confirmPassword ==> r == Refuse(PasswordMismatchMessage)
    ensures (form.password == form.confirmPassword && |form.password| < MinPasswordLength)
              ==> r == Refuse(PasswordTooShortMessage)
    ensures r.Submit? ==> r.request.password == form.password && r.request.email == form.email
                          && r.request.firstName == form.firstName && r.request.lastName == form.lastName
  {
    if form.password != form.confirmPassword then Refuse(PasswordMismatchMessage)
    else if |form.password| < MinPasswordLength then Refuse(PasswordTooShortMessage)
    else Submit(SignupRequest(form.email, form.password, form.firstName, form.lastName))
  }

  /** `handleVerification` up to the `verifyOtp` call: the code typed into the
      six boxes, joined, is sent only when it has exactly six characters. */
  function Verification(boxes: seq<string>): (r: Submission<string>)
    ensures r.Submit? <==> |Join(boxes)| == TokenLength
    ensures r.Submit? ==> r.request == Join(boxes)
    ensures r.Refuse? ==> r.message == IncompleteCodeMessage
  {
    var token := Join(boxes);
    if |token| != TokenLength then Refuse(IncompleteCodeMessage) else Submit(token)
  }

  /** `Array.join('')`: the boxes' values one after the other. */
  function Join(parts: seq<string>): string
  {
    if parts == [] then [] else Join(parts[..|parts| - 1]) + parts[|parts| - 1]
  }

  /** The joined code starts with the first box's value and continues with
      the join of the remaining boxes. */
  lemma {:induction false} JoinFront(parts: seq<string>)
    requires parts != []
    ensures |parts[0]| <= |Join(parts)|
    ensures Join(parts)[..|parts[0]|] == parts[0]
    ensures Join(parts)[|parts[0]|..] == Join(parts[1..])
  {
    var init, last := parts[..|parts| - 1], parts[|parts| - 1];
    if |parts| == 1 {
      assert parts[1..] == [];
      assert Join(parts) == Join([]) + last;
    } else {
      JoinFront(init);
      assert init[0] == parts[0];
      assert init[1..] == parts[1..][..|parts[1..]| - 1];
      assert Join(parts[1..]) == Join(init[1..]) + last;
      assert Join(parts) == Join(init) + last;
    }
  }

  /** Six boxes holding one character each make a complete code. */
  lemma {:induction false} OneCharPerBoxJoins(boxes: seq<string>)
    requires forall i :: 0 <= i < |boxes| ==> |boxes[i]| == 1
    ensures |Join(boxes)| == |boxes|
  {
    if boxes != [] {
      OneCharPerBoxJoins(boxes[..|boxes| - 1]);
    }
  }

  /** The URL check shared by `addMediaToPost` and `updateAvatarFromModal`:
      the input is trimmed; an empty result and a result that starts with
      neither `http://` nor `https://` are refused; otherwise the trimmed URL
      is used. */
  function ImageUrl(input: string): (r: Submission<string>)
    ensures r.Submit? <==> Trim(input) != [] && ("http://" <= Trim(input) || "https://" <= Trim(input))
    ensures r.Submit? ==> r.request == Trim(input) && !IsWhitespace(r.request[0])
    ensures AllWhitespace(input) ==> r == Refuse(MissingUrlMessage)
    ensures !AllWhitespace(input) && r.Refuse? ==> r.message == BadSchemeMessage
  {
    var url := Trim(input);
    if url == [] then Refuse(MissingUrlMessage)
    else if !("http://" <= url) && !("https://" <= url) then Refuse(BadSchemeMessage)
    else Submit(url)
  }

  /** Surrounding whitespace never changes the verdict on a URL. */
  lemma ImageUrlIgnoresPadding(input: string)
    ensures ImageUrl(Trim(input)) == ImageUrl(input)
  {
    TrimIdempotent(input);
  }

  /** The guard of the debounced search in `handleSearchInput`: a lookup is
      made only for a trimmed term of at least two characters. */
  function SearchTerm(input: string): (r: Option<string>)
    ensures r.Some? <==> |Trim(input)| >= MinSearchLength
    ensures r.Some? ==> r.value == Trim(input) && !IsWhitespace(r.value[0])
                        && !IsWhitespace(r.value[|r.value| - 1])
    ensures AllWhitespace(input) ==> r == None
  {
    var term := Trim(input);
    if |term| >= MinSearchLength then Some(term) else None
  }
}
