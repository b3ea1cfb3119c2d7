/** The content check every comment and reply body goes through. */
module Content {
  import opened Text

  const TooShort: string := "Content Too Short"
  const Inappropriate: string := "Inappropriate language is not allowed"
  const Accepted: string := "valid"

  /** `checkBody`: the length rule (in UTF-16 code units) comes before the profanity rule;
      the profanity filter is the parameter `isProfane`. */
  function CheckBody(body: string, isProfane: string -> bool): (verdict: string)
    ensures verdict == TooShort || verdict == Inappropriate || verdict == Accepted
    ensures Utf16Length(body) < 3 ==> verdict == TooShort
    ensures verdict == Accepted <==> Utf16Length(body) >= 3 && !isProfane(body)
    ensures verdict == Inappropriate <==> Utf16Length(body) >= 3 && isProfane(body)
  {
    if Utf16Length(body) < 3 then TooShort
    else if isProfane(body) then Inappropriate
    else Accepted
  }

  /** Whatever the filter says, an accepted body has at least two characters, and
      at least three unless some character lies outside the basic multilingual plane. */
  lemma {:induction false} AcceptedIsLongEnough(body: string, isProfane: string -> bool)
    requires CheckBody(body, isProfane) == Accepted
    ensures |body| >= 2
    ensures (forall i :: 0 <= i < |body| ==> body[i] as int < 0x1_0000) ==> |body| >= 3
  {
  }
}
