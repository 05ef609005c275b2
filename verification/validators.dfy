/**
 * The request schemas of backend/src/utils/validators.ts and the reply schema of
 * backend/src/routes/questions.ts. Each schema is a small rule value interpreted by one
 * checker, the way the declarative zod schemas are; the named predicates are those schemas.
 *
 * An optional `images` field that is absent is modelled as the empty list, which every
 * schema accepts just as it accepts an absent field. URL validation is foreign library
 * behaviour and is the parameter `isUrl`.
 */
module Validators {
  import opened Common

  /** Characters allowed by the handle pattern `^[a-zA-Z0-9_-]+$`. */
  predicate IsHandleChar(c: char)
  {
    ('a' <= c <= 'z') || ('A' <= c <= 'Z') || ('0' <= c <= '9') || c == '_' || c == '-'
  }

  /**
   * The length JavaScript reports for a string: its number of UTF-16 code units. A
   * character outside the Basic Multilingual Plane takes a surrogate pair, so it counts twice.
   */
  function Utf16Length(s: string): (n: nat)
    ensures |s| <= n <= 2 * |s|
  {
    if s == [] then 0
    else Utf16Length(s[..|s| - 1]) + (if s[|s| - 1] as int >= 0x1_0000 then 2 else 1)
  }

  /** A string of Basic Multilingual Plane characters has one code unit per character. */
  lemma {:induction false} BmpLength(s: string)
    requires forall i :: 0 <= i < |s| ==> s[i] as int < 0x1_0000
    ensures Utf16Length(s) == |s|
  {
    if s != [] {
      BmpLength(s[..|s| - 1]);
    }
  }

  /** A string of characters outside the Basic Multilingual Plane has two code units per character. */
  lemma {:induction false} AstralLength(s: string)
    requires forall i :: 0 <= i < |s| ==> s[i] as int >= 0x1_0000
    ensures Utf16Length(s) == 2 * |s|
  {
    if s != [] {
      AstralLength(s[..|s| - 1]);
    }
  }

  /** Which characters a string rule admits. */
  datatype Charset = AnyChar | HandleChars

  /** `z.string().min(min).max(max)`, optionally with the handle pattern. */
  datatype StringRule = StringRule(min: nat, max: nat, charset: Charset)

  predicate AcceptsString(rule: StringRule, s: string)
  {
    && rule.min <= Utf16Length(s) <= rule.max
    && (rule.charset == HandleChars ==> forall i :: 0 <= i < |s| ==> IsHandleChar(s[i]))
  }

  /** `z.array(z.string().url()).max(max)`. */
  predicate AcceptsUrls(max: nat, urls: seq<string>, isUrl: string -> bool)
  {
    |urls| <= max && forall i :: 0 <= i < |urls| ==> isUrl(urls[i])
  }

  /** An optional field: absent is always accepted. */
  predicate AcceptsOptional(rule: StringRule, s: Option<string>)
  {
    s.None? || AcceptsString(rule, s.value)
  }

  const MaxImages: nat := 3
  const ContentRule := StringRule(1, 500, AnyChar)
  const HandleRule := StringRule(1, 50, HandleChars)
  const ReceiverHandleRule := StringRule(1, 50, AnyChar)
  const NameRule := StringRule(1, 50, AnyChar)
  const ReplyContentRule := StringRule(1, 1000, AnyChar)

  /** The avatar types listed by `profileUpdateSchema`. */
  const AvatarTypes: set<string> := {"default_1", "default_2", "default_3", "custom", "google"}

  /** `bottleMessageSchema`: used by bottle creation and bottle replies. */
  predicate ValidBottleMessage(content: string, images: seq<string>, isUrl: string -> bool)
    ensures ValidBottleMessage(content, images, isUrl) <==>
      1 <= Utf16Length(content) <= 500 && |images| <= 3 && forall i :: 0 <= i < |images| ==> isUrl(images[i])
  {
    AcceptsString(ContentRule, content) && AcceptsUrls(MaxImages, images, isUrl)
  }

  /** `questionSchema`; `isPrivate` is a boolean whose absence means false. */
  predicate ValidQuestion(receiverHandle: string, content: string, images: seq<string>, isUrl: string -> bool)
    ensures ValidQuestion(receiverHandle, content, images, isUrl) <==>
      && 1 <= Utf16Length(receiverHandle) <= 50
      && 1 <= Utf16Length(content) <= 500
      && |images| <= 3 && forall i :: 0 <= i < |images| ==> isUrl(images[i])
  {
    && AcceptsString(ReceiverHandleRule, receiverHandle)
    && AcceptsString(ContentRule, content)
    && AcceptsUrls(MaxImages, images, isUrl)
  }

  /** `answerSchema`. */
  predicate ValidAnswer(answer: string, images: seq<string>, isUrl: string -> bool)
    ensures ValidAnswer(answer, images, isUrl) <==>
      1 <= Utf16Length(answer) <= 500 && |images| <= 3 && forall i :: 0 <= i < |images| ==> isUrl(images[i])
  {
    AcceptsString(ContentRule, answer) && AcceptsUrls(MaxImages, images, isUrl)
  }

  /** `replySchema` of the question routes: twice the content bound of the other schemas. */
  predicate ValidQuestionReply(content: string, images: seq<string>, isUrl: string -> bool)
    ensures ValidQuestionReply(content, images, isUrl) <==>
      1 <= Utf16Length(content) <= 1000 && |images| <= 3 && forall i :: 0 <= i < |images| ==> isUrl(images[i])
  {
    AcceptsString(ReplyContentRule, content) && AcceptsUrls(MaxImages, images, isUrl)
  }

  /** `profileUpdateSchema`: every field optional; a present field must satisfy its rule. */
  predicate ValidProfileUpdate(handle: Option<string>, name: Option<string>, avatarUrl: Option<string>,
                               avatarType: Option<string>, isUrl: string -> bool)
    ensures ValidProfileUpdate(handle, name, avatarUrl, avatarType, isUrl) <==>
      && (handle.Some? ==> 1 <= Utf16Length(handle.value) <= 50 &&
                           forall i :: 0 <= i < |handle.value| ==> IsHandleChar(handle.value[i]))
      && (name.Some? ==> 1 <= Utf16Length(name.value) <= 50)
      && (avatarUrl.Some? ==> isUrl(avatarUrl.value))
      && (avatarType.Some? ==> avatarType.value in AvatarTypes)
  {
    && AcceptsOptional(HandleRule, handle)
    && AcceptsOptional(NameRule, name)
    && (avatarUrl.Some? ==> isUrl(avatarUrl.value))
    && (avatarType.Some? ==> avatarType.value in AvatarTypes)
  }

  /** A valid bottle message is also a valid answer and a valid question reply. */
  lemma BottleMessageFitsOtherSchemas(content: string, images: seq<string>, isUrl: string -> bool)
    requires ValidBottleMessage(content, images, isUrl)
    ensures ValidAnswer(content, images, isUrl) && ValidQuestionReply(content, images, isUrl)
  {
  }

  /** A handle made of 51 letters is refused, one of 50 is accepted. */
  lemma HandleLengthBoundary(isUrl: string -> bool)
    ensures ValidProfileUpdate(Some(seq(50, _ => 'a')), None, None, None, isUrl)
    ensures !ValidProfileUpdate(Some(seq(51, _ => 'a')), None, None, None, isUrl)
  {
    BmpLength(seq(50, _ => 'a'));
    BmpLength(seq(51, _ => 'a'));
  }

  /**
   * Message bounds count code units: 300 emoji are 300 characters but 600 code units, so
   * they are refused, while 250 of them fill the bound exactly.
   */
  lemma EmojiCountTwice(isUrl: string -> bool)
    ensures !ValidBottleMessage(seq(300, _ => '\U{1F600}'), [], isUrl)
    ensures ValidBottleMessage(seq(250, _ => '\U{1F600}'), [], isUrl)
  {
    AstralLength(seq(300, _ => '\U{1F600}'));
    AstralLength(seq(250, _ => '\U{1F600}'));
  }
}
