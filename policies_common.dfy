/**
 * Helpers shared by the admission policies: splitting an image reference
 * into registry and repository, the text of a security-context violation,
 * and the annotation that records which mutations touched a resource.
 */
module PolicyCommon {
  import opened Wrappers
  import opened Strings
  import opened AssocLists

  // ---------------------------------------------------------------------
  // Image references
  // ---------------------------------------------------------------------

  /** An image reference without its tag or digest. */
  datatype ImageRef = ImageRef(registry: string, repository: string)

  /** The registry an image name without one is pulled from. */
  const DefaultRegistry: string := "docker.io"

  /**
   * Where `/[@:][^/]+$/` can match: an `@` or `:` followed by at least one
   * character and no `/` up to the end of the text.
   */
  predicate IsTagStart(s: string, i: int)
  {
    0 <= i < |s| - 1 && (s[i] == '@' || s[i] == ':') && '/' !in s[i + 1..]
  }

  /** The leftmost match position at or after `from`, or -1. */
  function TagStartFrom(s: string, from: nat): (r: int)
    ensures r == -1 || (from <= r && IsTagStart(s, r))
    ensures r == -1 ==> forall j :: from <= j ==> !IsTagStart(s, j)
    ensures r != -1 ==> forall j :: from <= j < r ==> !IsTagStart(s, j)
    decreases |s| - from
  {
    if from >= |s| then -1
    else if IsTagStart(s, from) then from
    else TagStartFrom(s, from + 1)
  }

  /** `s.replace(/[@:][^/]+$/, "")`: the text before the leftmost match, or `s` without one. */
  function StripTag(s: string): (r: string)
    ensures |r| <= |s| && r == s[..|r|]
  {
    var i := TagStartFrom(s, 0);
    if i < 0 then s else s[..i]
  }

  /** A first path segment names a registry when it has a `.` or `:` or is `localhost`. */
  predicate IsRegistryHost(part: string)
  {
    '.' in part || ':' in part || part == "localhost"
  }

  /** `parts[0]` of the split at `/`. */
  function FirstSegment(w: string): (r: string)
    ensures '/' !in r
  {
    Split(w, '/')[0]
  }

  /** `parts.slice(1).join("/")`. */
  function RestSegments(w: string): string
  {
    Join(Split(w, '/')[1..], "/")
  }

  /** The parse of a trimmed reference without its tag. */
  function ParseUntagged(w: string): Option<ImageRef>
  {
    var first := FirstSegment(w);
    if IsRegistryHost(first) then
      var repository := RestSegments(w);
      if repository == "" then None else Some(ImageRef(first, repository))
    else
      Some(ImageRef(DefaultRegistry, if '/' in w then w else "library/" + w))
  }

  /**
   * parseImageRef: null for a blank reference or a registry without a
   * repository; every result has a registry without `/` and a non-empty
   * repository.
   */
  function ParseImageRef(imageRef: string): (r: Option<ImageRef>)
    ensures JsTrim(imageRef) == "" ==> r.None?
    ensures r.Some? ==> '/' !in r.value.registry && r.value.repository != ""
  {
    if imageRef == "" then None
    else
      var trimmed := JsTrim(imageRef);
      if trimmed == "" then None else ParseUntagged(StripTag(trimmed))
  }

  /** The first segment and the rest put back together give the text again. */
  lemma SegmentsJoin(w: string)
    ensures '/' in w ==> w == FirstSegment(w) + "/" + RestSegments(w)
    ensures '/' !in w ==> FirstSegment(w) == w && RestSegments(w) == ""
  {
    var parts := Split(w, '/');
    SplitJoin(w, '/');
    if |parts| >= 2 {
      JoinCons(parts[0], parts[1..], "/");
      assert parts == [parts[0]] + parts[1..];
    } else {
      assert parts == [parts[0]];
    }
  }

  /**
   * A reference is refused exactly when its first segment is a registry
   * and nothing, or only a `/`, follows it.
   */
  lemma ParseUntaggedNone(w: string)
    ensures ParseUntagged(w).None? <==>
      IsRegistryHost(FirstSegment(w)) && (w == FirstSegment(w) || w == FirstSegment(w) + "/")
  {
    SegmentsJoin(w);
    if '/' in w && RestSegments(w) != "" {
      assert |w| > |FirstSegment(w) + "/"|;
    }
  }

  /** With a registry, registry and repository joined by `/` give the untagged reference back. */
  lemma ParseUntaggedRegistry(w: string)
    requires IsRegistryHost(FirstSegment(w)) && ParseUntagged(w).Some?
    ensures ParseUntagged(w).value.registry == FirstSegment(w)
    ensures ParseUntagged(w).value.registry + "/" + ParseUntagged(w).value.repository == w
  {
    SegmentsJoin(w);
  }

  /**
   * Without a registry the image comes from docker.io, and a name without
   * a namespace is put under `library/`.
   */
  lemma ParseUntaggedDefault(w: string)
    requires !IsRegistryHost(FirstSegment(w))
    ensures ParseUntagged(w).Some? && ParseUntagged(w).value.registry == DefaultRegistry
    ensures '/' in ParseUntagged(w).value.repository
    ensures '/' in w ==> ParseUntagged(w).value.repository == w
    ensures '/' !in w ==> ParseUntagged(w).value.repository == "library/" + w
  {
    assert ("library/" + w)[7] == '/';
  }

  /** The last path segment of `s` holds no `@` and no `:`. */
  predicate UntaggedName(s: string)
  {
    forall j :: 0 <= j < |s| && '/' !in s[j + 1..] ==> s[j] != '@' && s[j] != ':'
  }

  /** A name whose last segment has no `@` or `:` is left alone. */
  lemma StripTagUntagged(s: string)
    requires UntaggedName(s)
    ensures StripTag(s) == s
  {
    forall j
      ensures !IsTagStart(s, j)
    {
    }
  }

  /** A tag or digest, `:tag` or `@digest`, is cut off a name that has none. */
  lemma StripTagRemovesTag(base: string, c: char, tag: string)
    requires UntaggedName(base)
    requires c == '@' || c == ':'
    requires |tag| >= 1 && '/' !in tag
    ensures StripTag(base + [c] + tag) == base
  {
    var s := base + [c] + tag;
    assert s[|base| + 1..] == tag;
    assert IsTagStart(s, |base|);
    forall j | 0 <= j < |base|
      ensures !IsTagStart(s, j)
    {
      assert s[j + 1..] == base[j + 1..] + [c] + tag;
    }
    var i := TagStartFrom(s, 0);
    assert i == |base|;
    assert s[..|base|] == base;
  }

  /** After stripping, no further tag is found: stripping twice is stripping once. */
  lemma StripTagIdempotent(s: string)
    ensures StripTag(StripTag(s)) == StripTag(s)
  {
    var i := TagStartFrom(s, 0);
    if i >= 0 {
      var w := s[..i];
      forall j | 0 <= j < |w| && '/' !in w[j + 1..]
        ensures w[j] != '@' && w[j] != ':'
      {
        assert s[j + 1..] == w[j + 1..] + s[i..];
        assert s[i..] == [s[i]] + s[i + 1..];
        assert !IsTagStart(s, j);
      }
      StripTagUntagged(w);
    }
  }

  /** The tag or digest makes no difference to the parse. */
  lemma ParseIgnoresTag(base: string, c: char, tag: string)
    requires UntaggedName(base)
    requires c == '@' || c == ':'
    requires |tag| >= 1 && '/' !in tag
    ensures ParseUntagged(StripTag(base + [c] + tag)) == ParseUntagged(StripTag(base))
  {
    StripTagRemovesTag(base, c, tag);
    StripTagUntagged(base);
  }

  /** A reference without surrounding white space is not changed by trimming. */
  lemma TrimmedAlready(s: string)
    requires |s| >= 1 && !IsJsWhitespace(s[0]) && !IsJsWhitespace(s[|s| - 1])
    ensures JsTrim(s) == s
  {
  }

  /** A bare name is a docker.io library image. */
  lemma ParseNginxUntagged()
    ensures ParseUntagged("nginx") == Some(ImageRef("docker.io", "library/nginx"))
  {
    SegmentsJoin("nginx");
    assert !IsRegistryHost("nginx");
    assert '/' !in "nginx";
    assert "library/" + "nginx" == "library/nginx";
  }

  /** The references of the policy tests: a bare name, with or without a tag. */
  lemma ParseBareName()
    ensures ParseImageRef("nginx") == Some(ImageRef("docker.io", "library/nginx"))
  {
    TrimmedAlready("nginx");
    StripTagUntagged("nginx");
    ParseNginxUntagged();
  }

  lemma ParseTaggedName()
    ensures ParseImageRef("nginx:latest") == Some(ImageRef("docker.io", "library/nginx"))
  {
    TrimmedAlready("nginx:latest");
    StripTagRemovesTag("nginx", ':', "latest");
    assert "nginx:latest" == "nginx" + [':'] + "latest";
    ParseNginxUntagged();
  }

  /** A blank reference gives null. */
  lemma ParseBlank()
    ensures ParseImageRef("   ") == None
  {
    AllSpaceTrimStart("   ", IsJsWhitespace);
  }

  /** A registry host, a `/` and a path: the host is the registry and the path the repository. */
  lemma RegistryAndPath(host: string, path: string)
    requires '/' !in host && IsRegistryHost(host) && path != ""
    ensures ParseUntagged(host + "/" + path) == Some(ImageRef(host, path))
  {
    var w := host + "/" + path;
    IndexAfterPrefix(host, '/', path);
    assert w[..|host|] == host && w[|host| + 1..] == path;
    assert Split(w, '/') == [host] + Split(path, '/');
    assert Split(w, '/')[1..] == Split(path, '/');
    SplitJoin(path, '/');
  }

  /** A registry host with no `/` after it has no repository. */
  lemma RegistryWithoutRepository(w: string)
    requires '/' !in w && IsRegistryHost(w)
    ensures ParseUntagged(w).None?
  {
    SegmentsJoin(w);
  }

  // ---------------------------------------------------------------------
  // Violation messages
  // ---------------------------------------------------------------------

  /** `authorized.filter(a => a)`: the defined, non-empty values in order. */
  function AuthorizedValues(authorized: seq<Option<string>>): (r: seq<string>)
    ensures |r| <= |authorized|
    ensures forall v :: v in r <==> v != "" && Some(v) in authorized
  {
    if |authorized| == 0 then []
    else
      var rest := AuthorizedValues(authorized[1..]);
      assert forall o :: o in authorized <==> o == authorized[0] || o in authorized[1..];
      if Truthy(authorized[0]) then [authorized[0].value] + rest else rest
  }

  /** Filtering a concatenation filters each part. */
  lemma {:induction false} AuthorizedValuesAppend(a: seq<Option<string>>, b: seq<Option<string>>)
    ensures AuthorizedValues(a + b) == AuthorizedValues(a) + AuthorizedValues(b)
  {
    if |a| > 0 {
      assert (a + b)[1..] == a[1..] + b;
      AuthorizedValuesAppend(a[1..], b);
    } else {
      assert a + b == b;
    }
  }

  /**
   * securityContextMessage: the message, the authorised values joined by
   * ` | ` inside brackets, then the rendered violations joined the same
   * way. `render` stands for JSON.stringify of a violation.
   */
  function SecurityContextMessage<C>(msg: string, authorized: seq<Option<string>>, ctx: seq<C>, render: C -> string): (r: string)
    ensures StartsWith(r, msg + ". Authorized: [")
    ensures EndsWith(r, "] Found: " + Join(seq(|ctx|, i requires 0 <= i < |ctx| => render(ctx[i])), " | "))
  {
    var violations := Join(seq(|ctx|, i requires 0 <= i < |ctx| => render(ctx[i])), " | ");
    var prefix := msg + ". Authorized: [";
    var listed := prefix + Join(AuthorizedValues(authorized), " | ");
    var r := listed + ("] Found: " + violations);
    assert r[..|prefix|] == prefix;
    assert r[|listed|..] == "] Found: " + violations;
    r
  }

  /** An undefined or empty authorised value anywhere leaves the message as it was. */
  lemma UnsetAuthorizedOmitted<C>(msg: string, a: seq<Option<string>>, x: Option<string>, b: seq<Option<string>>, ctx: seq<C>, render: C -> string)
    requires !Truthy(x)
    ensures SecurityContextMessage(msg, a + [x] + b, ctx, render) == SecurityContextMessage(msg, a + b, ctx, render)
  {
    AuthorizedValuesAppend(a + [x], b);
    AuthorizedValuesAppend(a, [x]);
    AuthorizedValuesAppend(a, b);
    assert AuthorizedValues([x]) == [];
    assert AuthorizedValues(a + [x]) == AuthorizedValues(a);
  }

  /** With every value defined and non-empty, all of them are listed in order. */
  lemma {:induction false} AllAuthorizedListed(authorized: seq<Option<string>>)
    requires forall i :: 0 <= i < |authorized| ==> Truthy(authorized[i])
    ensures AuthorizedValues(authorized) == seq(|authorized|, i requires 0 <= i < |authorized| => authorized[i].UnwrapOr(""))
  {
    if |authorized| > 0 {
      AllAuthorizedListed(authorized[1..]);
    }
  }

  // ---------------------------------------------------------------------
  // The mutation annotation
  // ---------------------------------------------------------------------

  /** The annotation listing the mutations applied to a resource, as a JSON array of strings. */
  const MutatedKey: string := "uds-core.pepr.dev/mutated"

  /** `transform`: a `-` before every upper-case letter but the first, then lower case. */
  function KebabCase(policy: string): (r: string)
    ensures forall i :: 0 <= i < |r| ==> !IsAsciiUpper(r[i])
    ensures |r| >= |policy|
  {
    if |policy| == 0 then "" else [LowerChar(policy[0])] + KebabTail(policy[1..])
  }

  /** The characters after the first: each upper-case letter starts a new word. */
  function KebabTail(s: string): (r: string)
    ensures forall i :: 0 <= i < |r| ==> !IsAsciiUpper(r[i])
    ensures |r| >= |s|
  {
    if |s| == 0 then ""
    else (if IsAsciiUpper(s[0]) then "-" else "") + [LowerChar(s[0])] + KebabTail(s[1..])
  }

  /**
   * `split(/(?=[A-Z])/)`: the text cut before every upper-case letter except
   * at its start; an empty text is one empty piece.
   */
  function SplitBeforeUpper(s: string): (r: seq<string>)
    ensures |r| >= 1
    ensures |s| > 0 ==> |r[0]| > 0 && r[0][0] == s[0]
    ensures forall k :: 1 <= k < |r| ==> |r[k]| > 0 && IsAsciiUpper(r[k][0])
    ensures forall k, j :: 0 <= k < |r| && 1 <= j < |r[k]| ==> !IsAsciiUpper(r[k][j])
    decreases |s|
  {
    if |s| <= 1 then [s]
    else
      var rest := SplitBeforeUpper(s[1..]);
      if IsAsciiUpper(s[1]) then [[s[0]]] + rest
      else [[s[0]] + rest[0]] + rest[1..]
  }

  /** One step of KebabCase: the first character, a `-` when the second is upper case, the rest. */
  lemma KebabCaseStep(policy: string)
    requires |policy| >= 2
    ensures KebabCase(policy) ==
      [LowerChar(policy[0])] + (if IsAsciiUpper(policy[1]) then "-" else "") + KebabCase(policy[1..])
  {
    assert policy[1..][0] == policy[1];
    assert policy[1..][1..] == policy[2..];
  }

  /** Joining when the second character continues the first word. */
  lemma {:induction false} JoinGlued(c: char, rest: seq<string>)
    requires |rest| >= 1
    ensures Join([[c] + rest[0]] + rest[1..], "-") == [c] + Join(rest, "-")
  {
    var first, tail := rest[0], rest[1..];
    assert rest == [first] + tail;
    if tail == [] {
      assert [[c] + first] + tail == [[c] + first];
    } else {
      JoinCons([c] + first, tail, "-");
      JoinCons(first, tail, "-");
      var t := Join(tail, "-");
      assert ([c] + first) + "-" + t == [c] + (first + "-" + t);
    }
  }

  lemma ToLowerCons(c: char, t: string)
    ensures ToLower([c] + t) == [LowerChar(c)] + ToLower(t)
  {
    assert ([c] + t)[1..] == t;
  }

  /** The words of a text whose second character is upper case: the first character alone, then the rest's words. */
  lemma {:induction false} JoinedWordsUpperStep(policy: string)
    requires |policy| >= 2 && IsAsciiUpper(policy[1])
    ensures ToLower(Join(SplitBeforeUpper(policy), "-")) ==
      [LowerChar(policy[0])] + "-" + ToLower(Join(SplitBeforeUpper(policy[1..]), "-"))
  {
    var rest := SplitBeforeUpper(policy[1..]);
    var joined := Join(rest, "-");
    assert SplitBeforeUpper(policy) == [[policy[0]]] + rest;
    JoinCons([policy[0]], rest, "-");
    assert [policy[0]] + "-" + joined == [policy[0]] + ("-" + joined);
    ToLowerCons(policy[0], "-" + joined);
    ToLowerCons('-', joined);
  }

  /** The words of a text whose second character is not upper case: the first character glued to the rest's first word. */
  lemma {:induction false} JoinedWordsGlueStep(policy: string)
    requires |policy| >= 2 && !IsAsciiUpper(policy[1])
    ensures ToLower(Join(SplitBeforeUpper(policy), "-")) ==
      [LowerChar(policy[0])] + ToLower(Join(SplitBeforeUpper(policy[1..]), "-"))
  {
    var rest := SplitBeforeUpper(policy[1..]);
    assert SplitBeforeUpper(policy) == [[policy[0]] + rest[0]] + rest[1..];
    JoinGlued(policy[0], rest);
    ToLowerCons(policy[0], Join(rest, "-"));
  }

  /** `transform` is the lower-cased join with `-` of the words `split(/(?=[A-Z])/)` yields. */
  lemma {:induction false} KebabCaseJoinsWords(policy: string)
    ensures KebabCase(policy) == ToLower(Join(SplitBeforeUpper(policy), "-"))
  {
    if |policy| == 1 {
      assert KebabCase(policy) == [LowerChar(policy[0])];
      assert ToLower(policy) == [LowerChar(policy[0])];
    } else if |policy| >= 2 {
      KebabCaseJoinsWords(policy[1..]);
      KebabCaseStep(policy);
      if IsAsciiUpper(policy[1]) {
        JoinedWordsUpperStep(policy);
      } else {
        JoinedWordsGlueStep(policy);
      }
    }
  }

  /** A string JSON.stringify writes without escapes, and that holds no comma. */
  predicate PlainString(s: string)
  {
    forall i :: 0 <= i < |s| ==> s[i] != '"' && s[i] != '\\' && s[i] != ',' && s[i] >= ' '
  }

  function Quote(s: string): string { "\"" + s + "\"" }

  /** JSON.stringify of a list of strings. */
  function EncodeList(items: seq<string>): (r: string)
  {
    "[" + Join(seq(|items|, i requires 0 <= i < |items| => Quote(items[i])), ",") + "]"
  }

  /** One quoted element, when it is a plain string in quotes. */
  function Unquote(part: string): Option<string>
  {
    if |part| >= 2 && part[0] == '"' && part[|part| - 1] == '"' && PlainString(part[1..|part| - 1])
    then Some(part[1..|part| - 1]) else None
  }

  function UnquoteAll(parts: seq<string>): (r: Option<seq<string>>)
    ensures r.Some? ==> |r.value| == |parts| && forall i :: 0 <= i < |parts| ==> Unquote(parts[i]) == Some(r.value[i])
    ensures r.None? ==> exists i :: 0 <= i < |parts| && Unquote(parts[i]).None?
  {
    if |parts| == 0 then Some([])
    else
      match (Unquote(parts[0]), UnquoteAll(parts[1..]))
      case (Some(v), Some(vs)) => Some([v] + vs)
      case (None, _) => None
      case (_, None) => assert exists i :: 0 <= i < |parts| - 1 && Unquote(parts[1..][i]).None?; None
  }

  /**
   * JSON.parse of the annotation, for arrays of plain strings written
   * without spaces; any other text is treated as the parse error.
   */
  function DecodeList(s: string): (r: Option<seq<string>>)
    ensures r.Some? ==> forall i :: 0 <= i < |r.value| ==> PlainString(r.value[i])
  {
    if |s| >= 2 && s[0] == '[' && s[|s| - 1] == ']' then
      var inner := s[1..|s| - 1];
      if inner == "" then Some([]) else UnquoteAll(Split(inner, ','))
    else None
  }

  /** Splitting a join at a separator none of the parts holds gives the parts back. */
  lemma {:induction false} JoinSplit(parts: seq<string>, sep: char)
    requires |parts| >= 1
    requires forall i :: 0 <= i < |parts| ==> sep !in parts[i]
    ensures Split(Join(parts, [sep]), sep) == parts
    decreases |parts|
  {
    if |parts| > 1 {
      var rest := Join(parts[1..], [sep]);
      JoinCons(parts[0], parts[1..], [sep]);
      assert [parts[0]] + parts[1..] == parts;
      SplitAfterPrefix(parts[0], sep, rest);
      JoinSplit(parts[1..], sep);
    } else {
      assert IndexOfChar(parts[0], sep) == -1;
    }
  }

  /** Splitting at the first separator, which ends a prefix without one. */
  lemma SplitAfterPrefix(p: string, sep: char, rest: string)
    requires sep !in p
    ensures Split(p + [sep] + rest, sep) == [p] + Split(rest, sep)
  {
    var s := p + [sep] + rest;
    IndexAfterPrefix(p, sep, rest);
    assert s[|p| + 1..] == rest;
    assert s[..|p|] == p;
  }

  lemma IndexAfterPrefix(p: string, sep: char, rest: string)
    requires sep !in p
    ensures IndexOfChar(p + [sep] + rest, sep) == |p|
  {
    var s := p + [sep] + rest;
    assert s[|p|] == sep;
    assert s[..|p|] == p;
  }

  /** Reading back what was written gives the same list. */
  lemma DecodeEncode(items: seq<string>)
    requires forall i :: 0 <= i < |items| ==> PlainString(items[i])
    ensures DecodeList(EncodeList(items)) == Some(items)
  {
    var quoted := seq(|items|, i requires 0 <= i < |items| => Quote(items[i]));
    var s := EncodeList(items);
    var inner := Join(quoted, ",");
    assert s[1..|s| - 1] == inner;
    if |items| == 0 {
      assert inner == "";
    } else {
      forall i | 0 <= i < |quoted|
        ensures ',' !in quoted[i] && Unquote(quoted[i]) == Some(items[i])
      {
        assert quoted[i][1..|quoted[i]| - 1] == items[i];
      }
      JoinSplit(quoted, ',');
      assert inner != "" by {
        JoinLength(quoted, ",");
      }
      assert UnquoteAll(quoted) == Some(items) by {
        UnquoteAllQuoted(items);
      }
    }
  }

  lemma {:induction false} JoinLength(parts: seq<string>, sep: string)
    requires |parts| >= 1
    ensures |Join(parts, sep)| >= |parts[0]|
  {
  }

  lemma {:induction false} UnquoteAllQuoted(items: seq<string>)
    requires forall i :: 0 <= i < |items| ==> PlainString(items[i])
    ensures UnquoteAll(seq(|items|, i requires 0 <= i < |items| => Quote(items[i]))) == Some(items)
  {
    var quoted := seq(|items|, i requires 0 <= i < |items| => Quote(items[i]));
    if |items| > 0 {
      assert quoted[0][1..|quoted[0]| - 1] == items[0];
      assert quoted[1..] == seq(|items[1..]|, i requires 0 <= i < |items[1..]| => Quote(items[1..][i]));
      UnquoteAllQuoted(items[1..]);
      assert items == [items[0]] + items[1..];
    }
  }

  /** The list after recording `name`: appended only when it is not there yet. */
  function WithMutation(list: seq<string>, name: string): (r: seq<string>)
    ensures name in r
    ensures forall v :: v in r <==> v in list || v == name
    ensures name in list ==> r == list
    ensures name !in list ==> r == list + [name]
  {
    if name in list then list else list + [name]
  }

  /** The annotation value the request starts from: the stored text, or `[]` when unset or empty. */
  function StoredList(annotations: seq<(string, string)>): Option<seq<string>>
  {
    var stored := Get(annotations, MutatedKey);
    DecodeList(if stored.Some? && stored.value != "" then stored.value else "[]")
  }

  /** The annotations of the resource a mutating request carries. */
  class MutateRequest {
    var annotations: seq<(string, string)>

    constructor (annotations: seq<(string, string)>)
      ensures this.annotations == annotations
    {
      this.annotations := annotations;
    }

    /**
     * annotateMutation: records the kebab-cased policy name in the list,
     * unless it is there already. A stored value that does not parse
     * throws, which `ok == false` stands for, and nothing is written.
     */
    method AnnotateMutation(policy: string) returns (ok: bool)
      modifies this
      ensures ok <==> StoredList(old(annotations)).Some?
      ensures ok ==>
                annotations == Put(old(annotations), MutatedKey, EncodeList(WithMutation(StoredList(old(annotations)).value, KebabCase(policy))))
      ensures !ok ==> annotations == old(annotations)
    {
      var arr := StoredList(annotations);
      if arr.None? {
        return false;
      }
      var list := arr.value;
      var safePolicyName := KebabCase(policy);
      if safePolicyName !in list {
        list := list + [safePolicyName];
      }
      annotations := Put(annotations, MutatedKey, EncodeList(list));
      ok := true;
    }
  }

  /** Every character of a plain policy name stays plain once kebab-cased. */
  lemma KebabPlain(policy: string)
    requires PlainString(policy)
    ensures PlainString(KebabCase(policy))
  {
    if |policy| > 0 {
      KebabTailPlain(policy[1..]);
    }
  }

  lemma {:induction false} KebabTailPlain(s: string)
    requires PlainString(s)
    ensures PlainString(KebabTail(s))
  {
    if |s| > 0 {
      KebabTailPlain(s[1..]);
    }
  }

  /** The list stored after a successful annotateMutation. */
  lemma AnnotatedList(annotations: seq<(string, string)>, policy: string)
    requires PlainString(policy)
    requires StoredList(annotations).Some?
    ensures var after := Put(annotations, MutatedKey, EncodeList(WithMutation(StoredList(annotations).value, KebabCase(policy))));
      StoredList(after) == Some(WithMutation(StoredList(annotations).value, KebabCase(policy)))
  {
    var list := WithMutation(StoredList(annotations).value, KebabCase(policy));
    KebabPlain(policy);
    DecodeEncode(list);
    var after := Put(annotations, MutatedKey, EncodeList(list));
    PutGet(annotations, MutatedKey, EncodeList(list), MutatedKey);
    assert EncodeList(list) != "";
  }

  /**
   * Annotating twice for the same policy stores what annotating once
   * does: the name is recorded once and not duplicated.
   */
  lemma AnnotateIdempotent(annotations: seq<(string, string)>, policy: string)
    requires PlainString(policy)
    requires StoredList(annotations).Some?
    ensures var name := KebabCase(policy);
      var once := Put(annotations, MutatedKey, EncodeList(WithMutation(StoredList(annotations).value, name)));
      && StoredList(once).Some?
      && Put(once, MutatedKey, EncodeList(WithMutation(StoredList(once).value, name))) == once
  {
    var name := KebabCase(policy);
    var list := WithMutation(StoredList(annotations).value, name);
    AnnotatedList(annotations, policy);
    PutPut(annotations, MutatedKey, EncodeList(list), EncodeList(list));
  }
}
