/** The request validators and the order in which handle_speech applies them. */
module Validation {
  import opened Basics
  import opened PoolMachine

  /** The status that an objection leads to; the texts that go with it are not modelled. */
  datatype Verdict = Fine | Bad(status: int)

  const MAX_BODY_BYTES: int := 1048576
  const JSON_TYPE: string := "application/json"
  const MODEL: string := "voxtral-4b"

  function ValidateContentType(contentType: string): Verdict {
    if Contains(contentType, JSON_TYPE) then Fine else Bad(400)
  }

  /** std::string::find succeeds. */
  predicate Contains(s: string, part: string) {
    part <= s || (s != [] && Contains(s[1..], part))
  }

  lemma {:induction false} ContainsIsOccurrence(s: string, part: string)
    ensures Contains(s, part) <==> exists before: string, after: string :: s == before + part + after
    decreases |s|
  {
    if part <= s {
      assert s == [] + part + s[|part|..];
    } else if s != [] {
      ContainsIsOccurrence(s[1..], part);
      if Contains(s[1..], part) {
        var before: string, after: string :| s[1..] == before + part + after;
        assert s == ([s[0]] + before) + part + after;
      }
      forall before: string, after: string | s == before + part + after
        ensures Contains(s, part)
      {
        assert part <= part + after;
        assert before == [] ==> s == part + after;
        assert s[1..] == before[1..] + part + after;
      }
    }
  }

  function ValidateBodySize(size: nat): Verdict {
    if size > MAX_BODY_BYTES then Bad(413) else Fine
  }

  function ValidateModel(model: string): Verdict {
    if model == "" then Bad(400)
    else if model != MODEL then Bad(400)
    else Fine
  }

  predicate IsSpace(c: char) {
    c == ' ' || '\t' <= c <= '\r'
  }

  function ValidateInput(input: string, maxChars: int): Verdict {
    if input == "" then Bad(400)
    else if forall i :: 0 <= i < |input| ==> IsSpace(input[i]) then Bad(400)
    else if maxChars > 0 && |input| > maxChars then Bad(400)
    else Fine
  }

  function ValidateVoice(voice: string, catalog: set<string>): Verdict {
    if voice == "" then Bad(400)
    else if voice !in catalog then Bad(400)
    else Fine
  }

  function ValidateFormat(format: string): Verdict {
    if format == "" || format == "wav" then Fine else Bad(400)
  }

  function ValidateSpeed(speed: real): Verdict {
    if speed < 0.25 || speed > 4.0 then Bad(400) else Fine
  }

  /** The JSON body: unparsable, or the fields extracted from it with their defaults filled in. */
  datatype Body = Malformed | Parsed(fields: Request)

  datatype HttpInput = HttpInput(contentType: string, bodySize: nat, body: Body)

  datatype Limits = Limits(maxChars: int, catalog: Option<set<string>>)

  datatype Screening = Accept(request: Request) | Reject(status: int)

  function OrElse(verdict: Verdict, next: Screening): Screening {
    if verdict.Bad? then Reject(verdict.status) else next
  }

  /** What a job handed to the pool satisfies. */
  predicate WellFormed(limits: Limits, r: Request) {
    && r.model == MODEL
    && (exists i :: 0 <= i < |r.text| && !IsSpace(r.text[i]))
    && (limits.maxChars > 0 ==> |r.text| <= limits.maxChars)
    && (limits.catalog.Some? ==> r.voice in limits.catalog.value && r.voice != "")
    && r.format in {"", "wav"}
    && 0.25 <= r.speed <= 4.0
  }

  /** Stages 1 to 4 of handle_speech: the first validator that objects decides the status. A request passes
      exactly when everything about it is in order, and is passed on unchanged; 413 is for size alone, and
      every other refusal is 400. */
  function Screen(limits: Limits, input: HttpInput): (result: Screening)
    ensures result.Accept? <==>
      && Contains(input.contentType, JSON_TYPE) && input.bodySize <= MAX_BODY_BYTES
      && input.body.Parsed? && WellFormed(limits, input.body.fields)
    ensures result.Accept? ==> result.request == input.body.fields
    ensures var oversized := Contains(input.contentType, JSON_TYPE) && input.bodySize > MAX_BODY_BYTES;
      result.Reject? ==> result.status == (if oversized then 413 else 400)
  {
    OrElse(ValidateContentType(input.contentType),
    OrElse(ValidateBodySize(input.bodySize),
    if input.body.Malformed? then Reject(400) else
      var f := input.body.fields;
      OrElse(ValidateModel(f.model),
      OrElse(ValidateInput(f.text, limits.maxChars),
      OrElse(if limits.catalog.None? then Fine else ValidateVoice(f.voice, limits.catalog.value),
      OrElse(ValidateFormat(f.format),
      OrElse(ValidateSpeed(f.speed),
      Accept(f))))))))
  }

  /** Who passes, spelled out: the content type mentions application/json, the body has at most a mebibyte and can be
      parsed, the model is the one there is, the text has a character other than white space and no more than the
      limit if there is one, the voice is known if there is a catalog, the format is WAV or left open, and the speed is
      from a quarter to four. */
  lemma AcceptedExactly(limits: Limits, input: HttpInput)
    ensures Screen(limits, input).Accept? <==>
      && (exists before: string, after: string :: input.contentType == before + "application/json" + after)
      && input.bodySize <= 1024 * 1024 && input.body.Parsed?
      && var f := input.body.fields;
      && f.model == "voxtral-4b"
      && (exists i :: 0 <= i < |f.text| && f.text[i] !in {' ', '\t', '\n', '\r', 11 as char, 12 as char})
      && (limits.maxChars > 0 ==> |f.text| <= limits.maxChars)
      && (limits.catalog.Some? ==> f.voice in limits.catalog.value && f.voice != "")
      && (f.format == "" || f.format == "wav") && 0.25 <= f.speed <= 4.0
  {
    ContainsIsOccurrence(input.contentType, "application/json");
    forall c: char
      ensures IsSpace(c) <==> c in {' ', '\t', '\n', '\r', 11 as char, 12 as char}
    {
      SpaceIs(c);
    }
  }

  lemma SpaceIs(c: char)
    ensures IsSpace(c) <==> c in {' ', '\t', '\n', '\r', 11 as char, 12 as char}
  {
    if '\t' <= c <= '\r' {
      assert c as int in {9, 10, 11, 12, 13};
      assert (c as int) as char == c;
    }
  }
}
