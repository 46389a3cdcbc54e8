/**
 * Object permissions of backend/dreams/permissions.py. DRF grants a
 * request on an object only when both `has_permission` and
 * `has_object_permission` hold.
 */
module Permissions {
  import opened Options

  type UserId = int

  /** `request.user`: the anonymous user or a logged-in account. */
  datatype Requester = Anonymous | Member(id: UserId)

  /** An object with an owner and, for dreams, an `is_public` attribute (absent on qualities). */
  datatype Owned = Owned(owner: UserId, isPublic: Option<bool>)

  /** DRF's `SAFE_METHODS`. */
  const SafeMethods: set<string> := {"GET", "HEAD", "OPTIONS"}

  /** `obj.user == request.user`; the anonymous user owns nothing. */
  predicate IsOwner(req: Requester, obj: Owned) {
    req.Member? && req.id == obj.owner
  }

  /** `has_permission`, the same for both classes: the requester is logged in. */
  function HasPermission(req: Requester): (granted: bool)
    ensures granted <==> req != Anonymous
  {
    match req
    case Anonymous => false
    case Member(_) => true
  }

  /** `IsAuthenticatedAndOwner.has_object_permission`. */
  function OwnerObjectPermission(req: Requester, obj: Owned): (granted: bool)
    ensures granted <==> req == Member(obj.owner)
  {
    IsOwner(req, obj)
  }

  /** `getattr(obj, "is_public", False)`. */
  function PublicFlag(obj: Owned): bool {
    match obj.isPublic
    case None => false
    case Some(b) => b
  }

  /** `IsAuthenticatedAndIsOwnerOrIsPublic.has_object_permission`. */
  function PublicObjectPermission(req: Requester, verb: string, obj: Owned): (granted: bool)
    ensures IsOwner(req, obj) ==> granted
    ensures !IsOwner(req, obj) && verb in SafeMethods ==> (granted <==> obj.isPublic == Some(true))
    ensures !IsOwner(req, obj) && verb !in SafeMethods ==> !granted
  {
    if IsOwner(req, obj) then true
    else if verb in SafeMethods then PublicFlag(obj)
    else false
  }

  /** Whatever the owner-only class grants, the owner-or-public class grants too, for every method. */
  lemma {:induction false} OwnerGrantImpliesPublicGrant(req: Requester, verb: string, obj: Owned)
    ensures OwnerObjectPermission(req, obj) ==> PublicObjectPermission(req, verb, obj)
    ensures HasPermission(req) && OwnerObjectPermission(req, obj) ==>
      HasPermission(req) && PublicObjectPermission(req, verb, obj)
  {
  }

  /**
   * With both checks combined, the anonymous user is refused everything, and
   * a non-owner can only read public objects.
   */
  lemma {:induction false} CombinedAccess(req: Requester, verb: string, obj: Owned)
    ensures req == Anonymous ==>
      !(HasPermission(req) && OwnerObjectPermission(req, obj)) &&
      !(HasPermission(req) && PublicObjectPermission(req, verb, obj))
    ensures HasPermission(req) && PublicObjectPermission(req, verb, obj) && !IsOwner(req, obj) ==>
      verb in SafeMethods && obj.isPublic == Some(true)
  {
  }
}

/** The prompt builders and validator of backend/dreams/services/prompt_service.py. */
module PromptService {
  import opened Text

  const ImageHeader: string := "Create an image of my dream with the following qualities and description:"
  const NoQualities: string := "No specific qualities"
  /** The opening word of the alteration prompt; `BuiltPromptsValid` reads its first letter. */
  const AlterationHead: string := "Using"
  const AlterationPrefix: string := AlterationHead + " the image of my dream, please apply the following alterations: "
  const UpdateNoteHead: string := "\n\nNote: The dream has been updated since this image was created. Current state:\nQualities: "
  const UpdateNoteTail: string := "\nPlease blend these updates with the requested alterations."

  /** `", ".join(names)`. */
  function QualitiesList(names: seq<string>): string {
    Join(names, ", ")
  }

  /**
   * The qualities line: the fallback text exactly when the joined list is
   * empty, which happens for no names or a single empty name.
   */
  function QualitiesText(names: seq<string>): (t: string)
    ensures t == NoQualities <==> |names| == 0 || (|names| == 1 && names[0] == [])
    ensures t != NoQualities ==> t == "Qualities: " + QualitiesList(names)
  {
    JoinEmpty(names, ", ");
    var list := QualitiesList(names);
    if list != [] then
      assert ("Qualities: " + list)[0] == 'Q';
      "Qualities: " + list
    else NoQualities
  }

  /** `generate_image_prompt` for a dream with the given quality names (in name order) and description. */
  function ImagePrompt(names: seq<string>, description: string): (p: string)
    ensures |p| >= |ImageHeader| + 1 && p[..|ImageHeader| + 1] == ImageHeader + "\n"
    ensures var tail := "\nDescription: " + description;
      |p| >= |tail| && p[|p| - |tail|..] == tail
    ensures p == ImageHeader + "\n" + QualitiesText(names) + "\nDescription: " + description
  {
    var p := ImageHeader + "\n" + QualitiesText(names) + "\nDescription: " + description;
    assert p == (ImageHeader + "\n") + (QualitiesText(names) + "\nDescription: " + description);
    assert p == (ImageHeader + "\n" + QualitiesText(names)) + ("\nDescription: " + description);
    p
  }

  /** The note appended when the dream changed after its image was made. */
  function UpdateNote(names: seq<string>, description: string): (note: string)
    ensures |note| > 0
  {
    UpdateNoteHead + QualitiesList(names) + "\nDescription: " + description + UpdateNoteTail
  }

  /** `generate_alteration_prompt`. */
  function AlterationPrompt(userPrompt: string, names: seq<string>, description: string, updatedSinceImage: bool): (p: string)
    ensures var base := AlterationPrefix + userPrompt;
      |p| >= |base| && p[..|base|] == base &&
      (p == base <==> !updatedSinceImage) &&
      (updatedSinceImage ==> p == base + UpdateNote(names, description))
  {
    var base := AlterationPrefix + userPrompt;
    if updatedSinceImage then
      var p := base + UpdateNote(names, description);
      assert |p| > |base|;
      p
    else base
  }

  /**
   * Python's `str.isspace` on the characters below U+0080: the ASCII
   * whitespace plus the four information separators U+001C–U+001F.
   */
  predicate PyIsSpace(c: char) {
    IsSpace(c) || '\U{1C}' <= c <= '\U{1F}'
  }

  /** `s.lstrip()`: `s` without its leading Python whitespace. */
  function StripStart(s: string): (r: string)
    ensures |r| <= |s| && r == s[|s| - |r|..]
    ensures r == [] || !PyIsSpace(r[0])
    ensures r == [] <==> forall i :: 0 <= i < |s| ==> PyIsSpace(s[i])
  {
    if |s| > 0 && PyIsSpace(s[0]) then
      var r := StripStart(s[1..]);
      assert forall i :: 1 <= i < |s| ==> s[i] == s[1..][i - 1];
      r
    else s
  }

  /** `s.rstrip()`: `s` without its trailing Python whitespace. */
  function StripEnd(s: string): (r: string)
    ensures |r| <= |s| && r == s[..|r|]
    ensures r == [] || !PyIsSpace(r[|r| - 1])
    ensures r == [] <==> forall i :: 0 <= i < |s| ==> PyIsSpace(s[i])
  {
    if |s| > 0 && PyIsSpace(s[|s| - 1]) then
      var r := StripEnd(s[..|s| - 1]);
      assert forall i :: 0 <= i < |s| - 1 ==> s[i] == s[..|s| - 1][i];
      r
    else s
  }

  /** `s.strip()`: empty exactly when every character is Python whitespace. */
  function Strip(s: string): (r: string)
    ensures r == [] <==> forall i :: 0 <= i < |s| ==> PyIsSpace(s[i])
    ensures r != [] ==> !PyIsSpace(r[0]) && !PyIsSpace(r[|r| - 1])
  {
    var t := StripStart(s);
    var r := StripEnd(t);
    assert t != [] ==> r != [] && r[0] == t[0];
    r
  }

  /** `validate_prompt`: refused exactly when empty or made of Python whitespace only. */
  function ValidatePrompt(prompt: string): (ok: bool)
    ensures ok <==> exists i :: 0 <= i < |prompt| && !PyIsSpace(prompt[i])
  {
    if prompt == [] || Strip(prompt) == [] then false else true
  }

  /** A prompt of information separators is refused, although JavaScript's `trim` would keep it. */
  lemma {:induction false} SeparatorsRefused(prompt: string)
    requires forall i :: 0 <= i < |prompt| ==> '\U{1C}' <= prompt[i] <= '\U{1F}'
    ensures !ValidatePrompt(prompt)
    ensures prompt != [] ==> Trim(prompt) == prompt
  {
    if prompt != [] {
      assert !IsSpace(prompt[0]) && !IsSpace(prompt[|prompt| - 1]);
      assert TrimStart(prompt) == prompt;
      assert TrimEnd(prompt) == prompt;
    }
  }

  /** The builders only make prompts the validator accepts. */
  lemma {:induction false} BuiltPromptsValid(userPrompt: string, names: seq<string>, description: string, updated: bool)
    ensures ValidatePrompt(ImagePrompt(names, description))
    ensures ValidatePrompt(AlterationPrompt(userPrompt, names, description, updated))
  {
    var p := ImagePrompt(names, description);
    var tail := "\nDescription: " + description;
    assert tail[1] == 'D';
    assert p[|p| - |tail| + 1] == p[|p| - |tail|..][1] == tail[1];
    assert !PyIsSpace(p[|p| - |tail| + 1]);
    var a := AlterationPrompt(userPrompt, names, description, updated);
    var base := AlterationPrefix + userPrompt;
    assert AlterationHead[0] == 'U';
    assert AlterationPrefix[0] == 'U';
    assert a[0] == a[..|base|][0] == base[0];
    assert !PyIsSpace(a[0]);
  }
}

/** `DreamAdmin.get_title` of backend/dreams/admin.py. */
module Admin {

  const TitleLength := 50
  const Ellipsis: string := "..."
  const Untitled: string := "(No description)"

  /** A description of at most 50 characters as is; a longer one cut to 50 with "..." added; none as a placeholder. */
  function GetTitle(description: string): (t: string)
    ensures description == [] ==> t == Untitled
    ensures 0 < |description| <= TitleLength ==> t == description
    ensures |description| > TitleLength ==> t == description[..TitleLength] + Ellipsis
    ensures |t| <= TitleLength + |Ellipsis|
    ensures description != [] ==>
      var k := if |description| <= TitleLength then |description| else TitleLength;
      k <= |t| && t[..k] == description[..k]
  {
    if description != [] then
      if |description| > TitleLength then description[..TitleLength] + Ellipsis else description
    else Untitled
  }

  /** Long descriptions that agree on their first 50 characters get the same title. */
  lemma {:induction false} TitleSeesFirstFifty(a: string, b: string)
    requires |a| > TitleLength && |b| > TitleLength && a[..TitleLength] == b[..TitleLength]
    ensures GetTitle(a) == GetTitle(b)
  {
  }

  /** Different descriptions of at most 50 characters get different titles. */
  lemma {:induction false} ShortTitlesDistinct(a: string, b: string)
    requires 0 < |a| <= TitleLength && 0 < |b| <= TitleLength && a != b
    ensures GetTitle(a) != GetTitle(b)
  {
  }
}
