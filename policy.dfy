/**
 * The Vault policy renderer (vault.go): two fixed ACL templates, one that
 * grants on the GUID mount paths of a service instance, its space and its
 * organization, and one that grants on the name-qualified paths as well,
 * and `GeneratePolicy`, which picks one, parses it and executes it against
 * the instance's identifiers.
 *
 * `html/template` is modelled only as far as these templates use it: text
 * with `{{ .Name }}` field actions, parsed into literal pieces and field
 * pieces, executed by writing each literal as it is and each field value
 * through an escaping function that is a parameter.  The writer `w` is
 * replaced by the returned text.
 */
module Policy {
  import opened Wrappers
  import opened Text

  /** The identifiers of a service instance that the templates refer to. */
  datatype InstanceInfo = InstanceInfo(
    serviceInstanceGuid: string,
    serviceInstanceName: string,
    spaceGuid: string,
    spaceName: string,
    organizationGuid: string,
    organizationName: string)

  /** The value of the field an action names, or None when the record has no such field. */
  function FieldValue(info: InstanceInfo, name: string): Option<string>
  {
    if name == "ServiceInstanceGUID" then Some(info.serviceInstanceGuid)
    else if name == "ServiceInstanceName" then Some(info.serviceInstanceName)
    else if name == "SpaceGUID" then Some(info.spaceGuid)
    else if name == "SpaceName" then Some(info.spaceName)
    else if name == "OrganizationGUID" then Some(info.organizationGuid)
    else if name == "OrganizationName" then Some(info.organizationName)
    else None
  }

  /** The three GUID fields: the only ones the GUID-only template names. */
  predicate IsGuidField(name: string)
  {
    name == "ServiceInstanceGUID" || name == "SpaceGUID" || name == "OrganizationGUID"
  }

  /*
   * Templates
   */

  /** A parsed template is a sequence of literal text and field actions. */
  datatype Piece = Lit(text: string) | Field(name: string)

  /** How a field action is written in template text. */
  function Action(name: string): string
  {
    "{{ ." + name + " }}"
  }

  /** The template text a sequence of pieces is written as. */
  function Source(ps: seq<Piece>): string
  {
    if ps == [] then ""
    else
      (match ps[0]
       case Lit(x) => x
       case Field(n) => Action(n)) + Source(ps[1..])
  }

  /** `s` has "}}" at position `k`. */
  predicate ClosesAt(s: string, k: nat)
  {
    k + 1 < |s| && s[k] == '}' && s[k + 1] == '}'
  }

  /** Position of the first "}}" in `s`, or `|s|` when there is none. */
  function CloseAt(s: string): (j: nat)
    ensures j <= |s|
    ensures j < |s| ==> ClosesAt(s, j)
    ensures forall k: nat | k < j :: !ClosesAt(s, k)
  {
    if |s| < 2 then |s|
    else if s[0] == '}' && s[1] == '}' then 0
    else
      var j := CloseAt(s[1..]);
      assert forall k: nat | 0 < k <= j :: ClosesAt(s, k) == ClosesAt(s[1..], k - 1);
      1 + j
  }

  predicate IsIdentChar(c: char)
  {
    'a' <= c <= 'z' || 'A' <= c <= 'Z' || '0' <= c <= '9' || c == '_'
  }

  /** A Go identifier (ASCII letters, digits and '_', not starting with a digit). */
  predicate IsIdent(n: string)
  {
    n != [] && !('0' <= n[0] <= '9') && forall i | 0 <= i < |n| :: IsIdentChar(n[i])
  }

  /** The field an action's text names: '.' and an identifier, with spaces around them. */
  function ActionName(body: string): (r: Option<string>)
    ensures r.Some? ==> IsIdent(r.value)
  {
    var t := TrimLeft(TrimRight(body, ' '), ' ');
    if |t| >= 2 && t[0] == '.' && IsIdent(t[1..]) then Some(t[1..]) else None
  }

  /** `x` put in front of a parsed template, joining the literal that starts it. */
  function Prepend(x: string, ps: seq<Piece>): seq<Piece>
  {
    if x == "" then ps
    else if ps != [] && ps[0].Lit? then [Lit(x + ps[0].text)] + ps[1..]
    else [Lit(x)] + ps
  }

  /** `Template.Parse`, for text whose actions are all field references. */
  function Parse(s: string): Result<seq<Piece>, string>
    decreases |s|, 1
  {
    if s == [] then Success([])
    else if |s| >= 2 && s[0] == '{' && s[1] == '{' then ParseAction(s[2..])
    else WithText([s[0]], Parse(s[1..]))
  }

  /** The rest of a template after an opening "{{": the action up to the first "}}", then what follows. */
  function ParseAction(body: string): Result<seq<Piece>, string>
    decreases |body| + 1, 0
  {
    var j := CloseAt(body);
    if j == |body| then Failure("unclosed action")
    else
      match ActionName(body[..j])
      case None => Failure("unexpected action: " + body[..j])
      case Some(n) => WithField(n, Parse(body[j + 2..]))
  }

  /** A field in front of a parse, or its error. */
  function WithField(n: string, r: Result<seq<Piece>, string>): Result<seq<Piece>, string>
  {
    match r
    case Failure(e) => Failure(e)
    case Success(ps) => Success([Field(n)] + ps)
  }

  /** Text in front of a parse, or its error. */
  function WithText(x: string, r: Result<seq<Piece>, string>): Result<seq<Piece>, string>
  {
    match r
    case Failure(e) => Failure(e)
    case Success(ps) => Success(Prepend(x, ps))
  }

  /** The pieces with neighbouring literals joined and empty literals dropped: what parsing their text gives. */
  function Compact(ps: seq<Piece>): seq<Piece>
  {
    if ps == [] then []
    else
      match ps[0]
      case Lit(x) => Prepend(x, Compact(ps[1..]))
      case Field(n) => [Field(n)] + Compact(ps[1..])
  }

  /** The character at `i` does not open an action: it is not '{', or something other than '{' follows it. */
  predicate NoOpen(x: string, i: nat)
    requires i < |x|
  {
    x[i] == '{' ==> i + 1 < |x| && x[i + 1] != '{'
  }

  /** Literal text that cannot open an action, here or where the next piece starts. */
  predicate Plain(x: string)
  {
    forall i: nat | i < |x| :: NoOpen(x, i)
  }

  /** Pieces whose text reads back as the same pieces: plain literals and identifier fields. */
  predicate Sound(ps: seq<Piece>)
  {
    forall i | 0 <= i < |ps| :: (ps[i].Lit? ==> Plain(ps[i].text)) && (ps[i].Field? ==> IsIdent(ps[i].name))
  }

  /** `Template.Execute`: literals are written as they are, fields through `escape`; a missing field stops execution. */
  function Execute(ps: seq<Piece>, info: InstanceInfo, escape: string -> string): Result<string, string>
  {
    if ps == [] then Success("")
    else
      var head := match ps[0]
        case Lit(x) => Success(x)
        case Field(n) =>
          (match FieldValue(info, n)
           case None => Failure("can't evaluate field " + n)
           case Some(v) => Success(escape(v)));
      match head
      case Failure(e) => Failure(e)
      case Success(h) =>
        match Execute(ps[1..], info, escape)
        case Failure(e) => Failure(e)
        case Success(t) => Success(h + t)
  }

  lemma PrependOne(c: char, x: string, ps: seq<Piece>)
    ensures Prepend([c], Prepend(x, ps)) == Prepend([c] + x, ps)
  {
    if x == "" {
      assert [c] + x == [c];
    } else if ps != [] && ps[0].Lit? {
      var q := [Lit(x + ps[0].text)] + ps[1..];
      assert q[1..] == ps[1..];
      assert [c] + (x + ps[0].text) == [c] + x + ps[0].text;
    } else {
      assert ([Lit(x)] + ps)[1..] == ps;
    }
  }

  /** A plain literal in front of any text parses as that literal in front of what the text parses to. */
  lemma {:induction false} ParseText(x: string, r: string)
    requires Plain(x)
    ensures Parse(x + r) == WithText(x, Parse(r))
    decreases |x|
  {
    if x == [] {
      assert x + r == r;
    } else {
      var s := x + r;
      assert s[1..] == x[1..] + r;
      assert Plain(x[1..]) by {
        forall i: nat | i < |x[1..]|
          ensures NoOpen(x[1..], i)
        {
          assert NoOpen(x, i + 1);
        }
      }
      ParseText(x[1..], r);
      assert !(|s| >= 2 && s[0] == '{' && s[1] == '{') by {
        assert NoOpen(x, 0);
      }
      match Parse(r)
      case Failure(e) =>
      case Success(ps) =>
        PrependOne(x[0], x[1..], ps);
        assert [x[0]] + x[1..] == x;
    }
  }

  /** The first "}}" after a run without '}' is where that run ends. */
  lemma CloseAfter(a: string, b: string)
    requires '}' !in a
    ensures CloseAt(a + "}}" + b) == |a|
  {
    var s := a + "}}" + b;
    assert ClosesAt(s, |a|);
    forall k: nat | k < |a|
      ensures !ClosesAt(s, k)
    {
      assert s[k] == a[k];
    }
  }

  /** The text between the braces of `Action(n)` names `n`. */
  lemma ActionNameOf(n: string)
    requires IsIdent(n)
    ensures ActionName(" ." + n + " ") == Some(n)
  {
    TrimActionRight(n);
    TrimActionLeft(n);
    var t := TrimLeft(TrimRight(" ." + n + " ", ' '), ' ');
    assert t == "." + n;
    assert t[1..] == n;
    assert |t| >= 2 && t[0] == '.';
  }

  lemma TrimActionRight(n: string)
    requires IsIdent(n)
    ensures TrimRight(" ." + n + " ", ' ') == " ." + n
  {
    var w := " ." + n;
    assert w[|w| - 1] == n[|n| - 1] && IsIdentChar(n[|n| - 1]);
    assert (w + " ")[|w|] == ' ';
    TrimRightUnique(w + " ", ' ', w);
  }

  lemma TrimActionLeft(n: string)
    ensures TrimLeft(" ." + n, ' ') == "." + n
  {
    var d := "." + n;
    assert (" ." + n)[1..] == d;
    assert TrimLeft(d, ' ') == d;
  }

  /** The text of `Action(n)` has no '}' between its braces. */
  lemma ActionInner(n: string)
    requires IsIdent(n)
    ensures '}' !in " ." + n + " "
  {
    var inner := " ." + n + " ";
    forall i | 0 <= i < |inner|
      ensures inner[i] != '}'
    {
      if 2 <= i < |inner| - 1 {
        assert inner[i] == n[i - 2];
      }
    }
  }

  /** An action whose text names a field parses as that field in front of what follows it. */
  lemma ParseActionAt(inner: string, n: string, r: string)
    requires '}' !in inner
    requires ActionName(inner) == Some(n)
    ensures Parse("{{" + inner + "}}" + r) == WithField(n, Parse(r))
  {
    var body := inner + "}}" + r;
    assert "{{" + inner + "}}" + r == "{{" + body;
    ParseOpening(body);
    ActionField(inner, n, r);
  }

  lemma ActionField(inner: string, n: string, r: string)
    requires '}' !in inner && ActionName(inner) == Some(n)
    ensures ParseAction(inner + "}}" + r) == WithField(n, Parse(r))
  {
    var body := inner + "}}" + r;
    CloseAfter(inner, r);
    assert body[..|inner|] == inner;
    assert body[|inner| + 2..] == r;
  }

  /** A field action in front of any text parses as that field in front of what the text parses to. */
  lemma ParseField(n: string, r: string)
    requires IsIdent(n)
    ensures Parse(Action(n) + r) == WithField(n, Parse(r))
  {
    var inner := " ." + n + " ";
    assert Action(n) + r == "{{" + inner + "}}" + r;
    ActionInner(n);
    ActionNameOf(n);
    ParseActionAt(inner, n, r);
  }

  /** An opening "{{" that no "}}" closes makes parsing fail, whatever plain text comes before it. */
  lemma ParseUnclosed(x: string, y: string)
    requires Plain(x) && '}' !in y
    ensures Parse(x + "{{" + y) == Failure("unclosed action")
  {
    var r := "{{" + y;
    assert x + "{{" + y == x + r;
    assert r[2..] == y;
    assert CloseAt(y) == |y|;
    ParseText(x, r);
  }

  /** An action that is not a field reference makes parsing fail, whatever plain text comes before it. */
  lemma ParseUnexpected(x: string, inner: string, y: string)
    requires Plain(x) && '}' !in inner && ActionName(inner).None?
    ensures Parse(x + "{{" + inner + "}}" + y) == Failure("unexpected action: " + inner)
  {
    var body := inner + "}}" + y;
    Regroup(x, inner, y);
    ParseOpening(body);
    ActionUnexpected(inner, y);
    ParseText(x, "{{" + body);
  }

  lemma Regroup(x: string, inner: string, y: string)
    ensures x + "{{" + inner + "}}" + y == x + ("{{" + (inner + "}}" + y))
  {
  }

  /** Text opening with "{{" parses as an action. */
  lemma ParseOpening(body: string)
    ensures Parse("{{" + body) == ParseAction(body)
  {
    assert ("{{" + body)[2..] == body;
  }

  lemma ActionUnexpected(inner: string, y: string)
    requires '}' !in inner && ActionName(inner).None?
    ensures ParseAction(inner + "}}" + y) == Failure("unexpected action: " + inner)
  {
    var body := inner + "}}" + y;
    CloseAfter(inner, y);
    assert body[..|inner|] == inner;
  }

  /** Parsing undoes writing: the text of sound pieces parses back to them, literals joined. */
  lemma {:induction false} ParseSource(ps: seq<Piece>)
    requires Sound(ps)
    ensures Parse(Source(ps)) == Success(Compact(ps))
    decreases |ps|
  {
    if ps != [] {
      assert Sound(ps[1..]) by {
        forall i | 0 <= i < |ps[1..]|
          ensures (ps[1..][i].Lit? ==> Plain(ps[1..][i].text)) && (ps[1..][i].Field? ==> IsIdent(ps[1..][i].name))
        {
          assert ps[1..][i] == ps[i + 1];
        }
      }
      ParseSource(ps[1..]);
      match ps[0]
      case Lit(x) =>
        ParseText(x, Source(ps[1..]));
      case Field(n) =>
        ParseField(n, Source(ps[1..]));
    }
  }

  /** A literal put in front adds its text in front of the output. */
  lemma ExecutePrepend(x: string, ps: seq<Piece>, info: InstanceInfo, escape: string -> string)
    ensures Execute(Prepend(x, ps), info, escape) == match Execute(ps, info, escape)
      case Failure(e) => Failure(e)
      case Success(t) => Success(x + t)
  {
    if x == "" {
      match Execute(ps, info, escape)
      case Failure(e) =>
      case Success(t) => assert x + t == t;
    } else if ps != [] && ps[0].Lit? {
      var q := [Lit(x + ps[0].text)] + ps[1..];
      assert q[1..] == ps[1..];
      match Execute(ps[1..], info, escape)
      case Failure(e) =>
      case Success(t) => assert x + ps[0].text + t == x + (ps[0].text + t);
    } else {
      assert ([Lit(x)] + ps)[1..] == ps;
    }
  }

  /** Joining literals does not change what a template writes. */
  lemma {:induction false} ExecuteCompact(ps: seq<Piece>, info: InstanceInfo, escape: string -> string)
    ensures Execute(Compact(ps), info, escape) == Execute(ps, info, escape)
    decreases |ps|
  {
    if ps != [] {
      ExecuteCompact(ps[1..], info, escape);
      match ps[0]
      case Lit(x) =>
        ExecutePrepend(x, Compact(ps[1..]), info, escape);
      case Field(n) =>
        assert ([Field(n)] + Compact(ps[1..]))[1..] == Compact(ps[1..]);
    }
  }

  /*
   * The two policies
   */

  /** One `path` stanza: the mount path after "cf/", whether it ends in the wildcard segment, the capabilities it grants, and how its `capabilities` line is indented. */
  datatype Stanza = Stanza(path: seq<Piece>, wildcard: bool, caps: seq<string>, indent: string)

  /** A policy template: stanzas, and verbatim text between them. */
  datatype Block = Rule(stanza: Stanza) | Verbatim(text: string)

  /** The capability names, each in double quotes, separated by ", ". */
  function QuotedList(caps: seq<string>): string
  {
    if caps == [] then ""
    else if |caps| == 1 then "\"" + caps[0] + "\""
    else "\"" + caps[0] + "\", " + QuotedList(caps[1..])
  }

  /** The text that ends a stanza after its mount path. */
  function StanzaTail(st: Stanza): string
  {
    (if st.wildcard then "/*" else "") + "\" {\n" + st.indent + "capabilities = [" + QuotedList(st.caps) + "]\n}\n"
  }

  function BlockPieces(b: Block): seq<Piece>
  {
    match b
    case Rule(st) => [Lit("path \"cf/")] + st.path + [Lit(StanzaTail(st))]
    case Verbatim(t) => [Lit(t)]
  }

  /** A policy as template pieces. */
  function Pieces(bs: seq<Block>): seq<Piece>
  {
    if bs == [] then [] else BlockPieces(bs[0]) + Pieces(bs[1..])
  }

  const ListOnly: seq<string> := ["list"]
  const ReadList: seq<string> := ["read", "list"]
  const FullAccess: seq<string> := ["create", "read", "update", "delete", "list"]

  /** The mount path that is a GUID. */
  function ByGuid(guid: string): seq<Piece>
  {
    [Field(guid)]
  }

  /** The mount path that is a name, '-', and a GUID. */
  function ByName(name: string, guid: string): seq<Piece>
  {
    [Field(name), Lit("-"), Field(guid)]
  }

  /** The stanzas of `ServicePolicyTemplateWithoutNames` (vault.go:9-33). */
  const GuidStanzas: seq<Stanza> := [
    Stanza(ByGuid("ServiceInstanceGUID"), false, ListOnly, "  "),
    Stanza(ByGuid("ServiceInstanceGUID"), true, FullAccess, "\t"),
    Stanza(ByGuid("SpaceGUID"), false, ListOnly, "  "),
    Stanza(ByGuid("SpaceGUID"), true, FullAccess, "  "),
    Stanza(ByGuid("OrganizationGUID"), false, ListOnly, "  "),
    Stanza(ByGuid("OrganizationGUID"), true, ReadList, "  ")
  ]

  /** The stanzas of `ServicePolicyTemplateWithNames` (vault.go:36-77). */
  const NamedStanzas: seq<Stanza> := [
    Stanza(ByName("ServiceInstanceName", "ServiceInstanceGUID"), false, ListOnly, "  "),
    Stanza(ByGuid("ServiceInstanceGUID"), false, ListOnly, "  "),
    Stanza(ByName("ServiceInstanceName", "ServiceInstanceGUID"), true, FullAccess, "\t"),
    Stanza(ByGuid("ServiceInstanceGUID"), true, FullAccess, "\t"),
    Stanza(ByName("SpaceName", "SpaceGUID"), false, ListOnly, "  "),
    Stanza(ByGuid("SpaceGUID"), false, ListOnly, "  "),
    Stanza(ByName("SpaceName", "SpaceGUID"), true, FullAccess, "  "),
    Stanza(ByGuid("SpaceGUID"), true, FullAccess, "  "),
    Stanza(ByName("OrganizationName", "OrganizationGUID"), false, ListOnly, "  "),
    Stanza(ByGuid("OrganizationGUID"), false, ListOnly, "  "),
    Stanza(ByName("OrganizationName", "OrganizationGUID"), true, ReadList, "  "),
    Stanza(ByGuid("OrganizationGUID"), true, ReadList, "  ")
  ]

  /** The two stray lines after the organization's bare GUID stanza (vault.go:67-68). */
  const SpaceIdLines: string := "\t// SpaceID is the unique ID of the space.\n" + "\tSpaceID string\n"

  /** The two stray lines after the organization's name-qualified wildcard stanza (vault.go:72-73). */
  const OrgIdLines: string := "\t// OrgID is the unique ID of the space.\n" + "\tOrgID string\n"

  /** Stanzas, each after an empty line. */
  function Spaced(sts: seq<Stanza>): seq<Block>
  {
    if sts == [] then [] else [Verbatim("\n"), Rule(sts[0])] + Spaced(sts[1..])
  }

  /** Stanzas one right after the other. */
  function Rules(sts: seq<Stanza>): seq<Block>
  {
    if sts == [] then [] else [Rule(sts[0])] + Rules(sts[1..])
  }

  /** The GUID-only template: after the opening newline, its stanzas separated by empty lines. */
  const WithoutNamesPolicy: seq<Block> := Spaced(GuidStanzas)

  /**
   * The name-qualified template: after the opening newline, its stanzas
   * with no empty lines between them, the two stray declarations coming
   * before the organization's last two stanzas.
   */
  const WithNamesPolicy: seq<Block> :=
    [Verbatim("\n")] + Rules(NamedStanzas[..10])
    + [Verbatim(SpaceIdLines), Rule(NamedStanzas[10]), Verbatim(OrgIdLines), Rule(NamedStanzas[11])]

  /** The text of the GUID-only template. */
  const ServicePolicyTemplateWithoutNames: string := Source(Pieces(WithoutNamesPolicy))

  /** The text of the name-qualified template. */
  const ServicePolicyTemplateWithNames: string := Source(Pieces(WithNamesPolicy))

  /** The name-qualified template is used only when all three names are known. */
  predicate HasNames(info: InstanceInfo)
  {
    info.organizationName != "" && info.spaceName != "" && info.serviceInstanceName != ""
  }

  /** `GeneratePolicy`: picks the template, parses it, and executes it against `info`. */
  function GeneratePolicy(info: InstanceInfo, escape: string -> string): Result<string, string>
  {
    var text :=
      if info.organizationName == "" || info.spaceName == "" || info.serviceInstanceName == ""
      then ServicePolicyTemplateWithoutNames
      else ServicePolicyTemplateWithNames;
    match Parse(text)
    case Failure(e) => Failure(e)
    case Success(t) => Execute(t, info, escape)
  }

  /*
   * What the policies write
   */

  /** The six field names `FieldValue` knows. */
  predicate IsInfoField(name: string)
  {
    name in {"ServiceInstanceGUID", "ServiceInstanceName", "SpaceGUID", "SpaceName", "OrganizationGUID", "OrganizationName"}
  }

  /** The value of a field the record has; the empty string otherwise. */
  function ValueOf(info: InstanceInfo, name: string): string
  {
    match FieldValue(info, name)
    case Some(v) => v
    case None => ""
  }

  /** The text pieces write when every field they name is known. */
  function Fill(ps: seq<Piece>, info: InstanceInfo, escape: string -> string): string
  {
    if ps == [] then ""
    else
      (match ps[0]
       case Lit(x) => x
       case Field(n) => escape(ValueOf(info, n))) + Fill(ps[1..], info, escape)
  }

  /** The text one block writes. */
  function RenderBlock(b: Block, info: InstanceInfo, escape: string -> string): string
  {
    match b
    case Rule(st) => "path \"cf/" + Fill(st.path, info, escape) + StanzaTail(st)
    case Verbatim(t) => t
  }

  /** The text a policy writes: its blocks' texts one after another. */
  function RenderPolicy(bs: seq<Block>, info: InstanceInfo, escape: string -> string): string
  {
    if bs == [] then "" else RenderBlock(bs[0], info, escape) + RenderPolicy(bs[1..], info, escape)
  }

  /** Every field the pieces name is one of the record's. */
  predicate KnownFields(ps: seq<Piece>)
  {
    forall i | 0 <= i < |ps| :: ps[i].Field? ==> IsInfoField(ps[i].name)
  }

  /** A block whose text reads back as its pieces and names only known fields. */
  predicate BlockOk(b: Block)
  {
    match b
    case Verbatim(t) => '{' !in t
    case Rule(st) =>
      && Sound(st.path) && KnownFields(st.path)
      && '{' !in st.indent && (forall k | 0 <= k < |st.caps| :: '{' !in st.caps[k])
  }

  /** Every block of the policy is well formed. */
  predicate WellFormed(bs: seq<Block>)
  {
    forall b | b in bs :: BlockOk(b)
  }

  /** Executing two templates one after the other writes their outputs one after the other. */
  lemma {:induction false} ExecuteAppend(a: seq<Piece>, b: seq<Piece>, info: InstanceInfo, escape: string -> string)
    ensures Execute(a + b, info, escape) == match Execute(a, info, escape)
      case Failure(e) => Failure(e)
      case Success(x) =>
        match Execute(b, info, escape)
        case Failure(e) => Failure(e)
        case Success(y) => Success(x + y)
    decreases |a|
  {
    if a == [] {
      assert a + b == b;
      match Execute(b, info, escape)
      case Failure(e) =>
      case Success(y) => assert "" + y == y;
    } else {
      assert (a + b)[0] == a[0] && (a + b)[1..] == a[1..] + b;
      ExecuteAppend(a[1..], b, info, escape);
      match Execute(a[1..], info, escape)
      case Failure(e) =>
      case Success(x) =>
        match Execute(b, info, escape)
        case Failure(e) =>
        case Success(y) =>
          var h := match a[0] case Lit(t) => t case Field(n) => escape(ValueOf(info, n));
          assert h + (x + y) == (h + x) + y;
    }
  }

  /** Pieces that name only known fields execute without error, writing `Fill`. */
  lemma {:induction false} ExecuteFill(ps: seq<Piece>, info: InstanceInfo, escape: string -> string)
    requires KnownFields(ps)
    ensures Execute(ps, info, escape) == Success(Fill(ps, info, escape))
    decreases |ps|
  {
    if ps != [] {
      assert KnownFields(ps[1..]) by {
        forall i | 0 <= i < |ps[1..]| && ps[1..][i].Field?
          ensures IsInfoField(ps[1..][i].name)
        {
          assert ps[1..][i] == ps[i + 1];
        }
      }
      ExecuteFill(ps[1..], info, escape);
    }
  }

  /** A stanza executes to the text `RenderBlock` gives it. */
  lemma ExecuteBlock(b: Block, info: InstanceInfo, escape: string -> string)
    requires BlockOk(b)
    ensures Execute(BlockPieces(b), info, escape) == Success(RenderBlock(b, info, escape))
  {
    match b
    case Verbatim(t) =>
      assert t + "" == t;
    case Rule(st) =>
      var head: seq<Piece> := [Lit("path \"cf/")];
      var tail: seq<Piece> := [Lit(StanzaTail(st))];
      assert Execute(head, info, escape) == Success("path \"cf/" + "");
      assert Execute(tail, info, escape) == Success(StanzaTail(st) + "");
      ExecuteFill(st.path, info, escape);
      ExecuteAppend(head, st.path, info, escape);
      ExecuteAppend(head + st.path, tail, info, escape);
      assert BlockPieces(b) == head + st.path + tail;
      var p, f, t := "path \"cf/", Fill(st.path, info, escape), StanzaTail(st);
      assert (p + "") + f == p + f;
      assert (p + f) + (t + "") == p + f + t;
  }

  /** A well-formed policy executes without error, writing `RenderPolicy`. */
  lemma {:induction false} ExecutePolicy(bs: seq<Block>, info: InstanceInfo, escape: string -> string)
    requires WellFormed(bs)
    ensures Execute(Pieces(bs), info, escape) == Success(RenderPolicy(bs, info, escape))
    decreases |bs|
  {
    if bs != [] {
      assert bs[0] in bs;
      ExecutePolicy(bs[1..], info, escape);
      ExecuteBlock(bs[0], info, escape);
      ExecuteAppend(BlockPieces(bs[0]), Pieces(bs[1..]), info, escape);
    }
  }

  lemma PlainAppend(a: string, b: string)
    requires Plain(a) && Plain(b)
    ensures Plain(a + b)
  {
    forall i: nat | i < |a + b|
      ensures NoOpen(a + b, i)
    {
      if i < |a| {
        assert NoOpen(a, i);
      } else {
        assert NoOpen(b, i - |a|);
      }
    }
  }

  lemma NoBracePlain(a: string)
    requires '{' !in a
    ensures Plain(a)
  {
    forall i: nat | i < |a|
      ensures NoOpen(a, i)
    {
      assert a[i] in a;
    }
  }

  lemma {:induction false} QuotedNoBrace(caps: seq<string>)
    requires forall k | 0 <= k < |caps| :: '{' !in caps[k]
    ensures '{' !in QuotedList(caps)
    decreases |caps|
  {
    if |caps| > 1 {
      QuotedNoBrace(caps[1..]);
    }
  }

  /** The only '{' a stanza's closing text holds is followed by a newline. */
  lemma StanzaTailPlain(st: Stanza)
    requires '{' !in st.indent && forall k | 0 <= k < |st.caps| :: '{' !in st.caps[k]
    ensures Plain(StanzaTail(st))
  {
    var w := if st.wildcard then "/*" else "";
    var open := "\" {\n";
    assert Plain(open) by {
      forall i: nat | i < |open|
        ensures NoOpen(open, i)
      {
      }
    }
    NoBracePlain(w);
    PlainAppend(w, open);
    NoBracePlain(st.indent);
    PlainAppend(w + open, st.indent);
    NoBracePlain("capabilities = [");
    PlainAppend(w + open + st.indent, "capabilities = [");
    QuotedNoBrace(st.caps);
    NoBracePlain(QuotedList(st.caps));
    PlainAppend(w + open + st.indent + "capabilities = [", QuotedList(st.caps));
    NoBracePlain("]\n}\n");
    PlainAppend(w + open + st.indent + "capabilities = [" + QuotedList(st.caps), "]\n}\n");
  }

  lemma SoundAppend(a: seq<Piece>, b: seq<Piece>)
    requires Sound(a) && Sound(b)
    ensures Sound(a + b)
  {
    forall i | 0 <= i < |a + b|
      ensures ((a + b)[i].Lit? ==> Plain((a + b)[i].text)) && ((a + b)[i].Field? ==> IsIdent((a + b)[i].name))
    {
      if i >= |a| {
        assert (a + b)[i] == b[i - |a|];
      }
    }
  }

  lemma SoundBlock(b: Block)
    requires BlockOk(b)
    ensures Sound(BlockPieces(b))
  {
    match b
    case Verbatim(t) =>
      NoBracePlain(t);
    case Rule(st) =>
      NoBracePlain("path \"cf/");
      StanzaTailPlain(st);
      SoundAppend([Lit("path \"cf/")], st.path);
      SoundAppend([Lit("path \"cf/")] + st.path, [Lit(StanzaTail(st))]);
  }

  /** The text of a well-formed policy reads back as its pieces. */
  lemma {:induction false} SoundPolicy(bs: seq<Block>)
    requires WellFormed(bs)
    ensures Sound(Pieces(bs))
    decreases |bs|
  {
    if bs != [] {
      assert bs[0] in bs;
      SoundPolicy(bs[1..]);
      SoundBlock(bs[0]);
      SoundAppend(BlockPieces(bs[0]), Pieces(bs[1..]));
    }
  }

  /** The six field names are identifiers. */
  lemma InfoFieldIdents()
    ensures forall n | IsInfoField(n) :: IsIdent(n)
  {
  }

  lemma CapsOk(caps: seq<string>)
    requires caps in {ListOnly, ReadList, FullAccess}
    ensures forall k | 0 <= k < |caps| :: '{' !in caps[k]
  {
  }

  lemma GuidRuleOk(g: string, wildcard: bool, caps: seq<string>, indent: string)
    requires IsInfoField(g) && caps in {ListOnly, ReadList, FullAccess} && indent in {"  ", "\t"}
    ensures BlockOk(Rule(Stanza(ByGuid(g), wildcard, caps, indent)))
  {
    InfoFieldIdents();
    CapsOk(caps);
  }

  lemma SpaceIdLinesOk()
    ensures BlockOk(Verbatim(SpaceIdLines))
  {
    NoBraceLine("\t// SpaceID is the unique ID of the space.\n");
    NoBraceLine("\tSpaceID string\n");
  }

  lemma OrgIdLinesOk()
    ensures BlockOk(Verbatim(OrgIdLines))
  {
    NoBraceLine("\t// OrgID is the unique ID of the space.\n");
    NoBraceLine("\tOrgID string\n");
  }

  lemma NoBraceLine(line: string)
    requires forall i | 0 <= i < |line| :: line[i] != '{'
    ensures '{' !in line
  {
  }

  lemma GuidStanzasOk()
    ensures forall i | 0 <= i < |GuidStanzas| :: BlockOk(Rule(GuidStanzas[i]))
  {
    var g := GuidStanzas;
    forall i | 0 <= i < |g|
      ensures BlockOk(Rule(g[i]))
    {
      GuidRuleOk(g[i].path[0].name, g[i].wildcard, g[i].caps, g[i].indent);
    }
  }

  /** Moving a well-formed stanza onto the name-qualified mount keeps it well formed. */
  lemma QualifiedOk(st: Stanza, g: string)
    requires BlockOk(Rule(st)) && IsGuidField(g)
    ensures BlockOk(Rule(Qualified(st, g)))
  {
    InfoFieldIdents();
    NoBracePlain("-");
  }

  /** Stanzas paired off as in the name-qualified policy are well formed when the GUID-only ones are. */
  lemma PairedOk(named: seq<Stanza>, guids: seq<Stanza>)
    requires |guids| == 6 && |named| == 12
    requires forall i | 0 <= i < |guids| :: BlockOk(Rule(guids[i]))
    requires forall i | 0 <= i < 6 :: named[2 * i] == Qualified(guids[i], GuidFields[i / 2]) && named[2 * i + 1] == guids[i]
    ensures forall i | 0 <= i < |named| :: BlockOk(Rule(named[i]))
  {
    forall i | 0 <= i < |named|
      ensures BlockOk(Rule(named[i]))
    {
      var k := i / 2;
      assert named[2 * k] == Qualified(guids[k], GuidFields[k / 2]) && named[2 * k + 1] == guids[k];
      assert BlockOk(Rule(guids[k]));
      if i % 2 == 1 {
        assert i == 2 * k + 1;
      } else {
        assert i == 2 * k;
        QualifiedOk(guids[k], GuidFields[k / 2]);
      }
    }
  }

  lemma NamedStanzasOk()
    ensures forall i | 0 <= i < |NamedStanzas| :: BlockOk(Rule(NamedStanzas[i]))
  {
    GuidStanzasOk();
    NamedPairs();
    PairedOk(NamedStanzas, GuidStanzas);
  }

  lemma {:induction false} SpacedWellFormed(sts: seq<Stanza>)
    requires forall i | 0 <= i < |sts| :: BlockOk(Rule(sts[i]))
    ensures WellFormed(Spaced(sts))
    decreases |sts|
  {
    if sts != [] {
      SpacedWellFormed(sts[1..]);
      assert BlockOk(Rule(sts[0]));
    }
  }

  lemma {:induction false} RulesWellFormed(sts: seq<Stanza>)
    requires forall i | 0 <= i < |sts| :: BlockOk(Rule(sts[i]))
    ensures WellFormed(Rules(sts))
    decreases |sts|
  {
    if sts != [] {
      RulesWellFormed(sts[1..]);
      assert BlockOk(Rule(sts[0]));
    }
  }

  lemma PoliciesWellFormed()
    ensures WellFormed(WithoutNamesPolicy) && WellFormed(WithNamesPolicy)
  {
    GuidStanzasOk();
    SpacedWellFormed(GuidStanzas);
    NamedStanzasOk();
    RulesWellFormed(NamedStanzas[..10]);
    SpaceIdLinesOk();
    OrgIdLinesOk();
    assert BlockOk(Rule(NamedStanzas[10])) && BlockOk(Rule(NamedStanzas[11]));
  }

  /**
   * `GeneratePolicy` never fails: it writes the name-qualified policy when
   * the organization, space and instance names are all set, and the
   * GUID-only policy otherwise.
   */
  lemma GeneratePolicyRenders(info: InstanceInfo, escape: string -> string)
    ensures GeneratePolicy(info, escape) ==
      Success(RenderPolicy(if HasNames(info) then WithNamesPolicy else WithoutNamesPolicy, info, escape))
  {
    var bs := if HasNames(info) then WithNamesPolicy else WithoutNamesPolicy;
    PoliciesWellFormed();
    SoundPolicy(bs);
    ParseSource(Pieces(bs));
    ExecuteCompact(Pieces(bs), info, escape);
    ExecutePolicy(bs, info, escape);
  }

  /*
   * The shape of the two policies
   */

  /** The stanzas of a policy, in order. */
  function Stanzas(bs: seq<Block>): seq<Stanza>
  {
    if bs == [] then []
    else (if bs[0].Rule? then [bs[0].stanza] else []) + Stanzas(bs[1..])
  }

  /** The three GUID fields, from the instance out to the organization. */
  const GuidFields: seq<string> := ["ServiceInstanceGUID", "SpaceGUID", "OrganizationGUID"]

  /** The name field that goes with a GUID field. */
  function NameField(guid: string): string
  {
    if guid == "ServiceInstanceGUID" then "ServiceInstanceName"
    else if guid == "SpaceGUID" then "SpaceName"
    else "OrganizationName"
  }

  /**
   * What a stanza on `guid`'s mount grants: listing on the mount itself;
   * under it, reading and listing for an organization and everything for
   * an instance or a space.
   */
  function Grant(guid: string, wildcard: bool): seq<string>
  {
    if !wildcard then ListOnly else if guid == "OrganizationGUID" then ReadList else FullAccess
  }

  /** The same stanza on the mount named by `guid`'s name, '-', and the GUID. */
  function Qualified(st: Stanza, guid: string): Stanza
  {
    st.(path := ByName(NameField(guid), guid))
  }

  lemma {:induction false} StanzasAppend(a: seq<Block>, b: seq<Block>)
    ensures Stanzas(a + b) == Stanzas(a) + Stanzas(b)
    decreases |a|
  {
    if a != [] {
      assert (a + b)[1..] == a[1..] + b;
      StanzasAppend(a[1..], b);
    } else {
      assert a + b == b;
    }
  }

  lemma {:induction false} SpacedStanzas(sts: seq<Stanza>)
    ensures Stanzas(Spaced(sts)) == sts
    decreases |sts|
  {
    if sts != [] {
      StanzasAppend([Verbatim("\n"), Rule(sts[0])], Spaced(sts[1..]));
      SpacedStanzas(sts[1..]);
      assert Stanzas([Verbatim("\n"), Rule(sts[0])]) == [sts[0]] by {
        assert [Verbatim("\n"), Rule(sts[0])][1..] == [Rule(sts[0])];
      }
    }
  }

  lemma {:induction false} RulesStanzas(sts: seq<Stanza>)
    ensures Stanzas(Rules(sts)) == sts
    decreases |sts|
  {
    if sts != [] {
      StanzasAppend([Rule(sts[0])], Rules(sts[1..]));
      RulesStanzas(sts[1..]);
    }
  }

  /**
   * The GUID-only policy has six stanzas, two per GUID from the instance
   * out: first listing on the mount, then the grant under it.
   */
  lemma GuidTemplateShape()
    ensures Stanzas(WithoutNamesPolicy) == GuidStanzas
    ensures |GuidStanzas| == 6
    ensures forall i | 0 <= i < 6 ::
      var g := GuidFields[i / 2];
      GuidStanzas[i] == Stanza(ByGuid(g), i % 2 == 1, Grant(g, i % 2 == 1), GuidStanzas[i].indent)
  {
    SpacedStanzas(GuidStanzas);
  }

  /** Two stanzas, each after a verbatim line. */
  lemma InterleavedStanzas(x: string, s1: Stanza, y: string, s2: Stanza)
    ensures Stanzas([Verbatim(x), Rule(s1), Verbatim(y), Rule(s2)]) == [s1, s2]
  {
    var b3 := [Rule(s2)];
    var b2 := [Verbatim(y)] + b3;
    var b1 := [Rule(s1)] + b2;
    assert b3[1..] == [] && b2[1..] == b3 && b1[1..] == b2;
    assert Stanzas(b3) == [s2];
    assert Stanzas(b2) == [s2];
    assert Stanzas(b1) == [s1, s2];
    assert ([Verbatim(x)] + b1)[1..] == b1;
    assert [Verbatim(x)] + b1 == [Verbatim(x), Rule(s1), Verbatim(y), Rule(s2)];
  }

  /** Each stanza of the name-qualified policy at an even place is the next one on the name-qualified mount. */
  lemma NamedPairs()
    ensures forall i | 0 <= i < 6 ::
      NamedStanzas[2 * i] == Qualified(GuidStanzas[i], GuidFields[i / 2]) && NamedStanzas[2 * i + 1] == GuidStanzas[i]
  {
  }

  /**
   * The name-qualified policy has twelve stanzas: each stanza of the
   * GUID-only policy, right after the same stanza on the name-qualified mount.
   */
  lemma NamedTemplateShape()
    ensures Stanzas(WithNamesPolicy) == NamedStanzas
    ensures |NamedStanzas| == 12
    ensures forall i | 0 <= i < 6 ::
      NamedStanzas[2 * i] == Qualified(GuidStanzas[i], GuidFields[i / 2]) && NamedStanzas[2 * i + 1] == GuidStanzas[i]
  {
    var head := [Verbatim("\n")] + Rules(NamedStanzas[..10]);
    var tail := [Verbatim(SpaceIdLines), Rule(NamedStanzas[10]), Verbatim(OrgIdLines), Rule(NamedStanzas[11])];
    StanzasAppend(head, tail);
    StanzasAppend([Verbatim("\n")], Rules(NamedStanzas[..10]));
    RulesStanzas(NamedStanzas[..10]);
    InterleavedStanzas(SpaceIdLines, NamedStanzas[10], OrgIdLines, NamedStanzas[11]);
    assert NamedStanzas[..10] + [NamedStanzas[10], NamedStanzas[11]] == NamedStanzas;
    NamedPairs();
  }

  /*
   * What the policies depend on
   */

  /** Two records with the same three GUIDs. */
  predicate SameGuids(a: InstanceInfo, b: InstanceInfo)
  {
    a.serviceInstanceGuid == b.serviceInstanceGuid && a.spaceGuid == b.spaceGuid
    && a.organizationGuid == b.organizationGuid
  }

  /** Pieces that name GUID fields only. */
  predicate GuidPath(ps: seq<Piece>)
  {
    forall i | 0 <= i < |ps| :: ps[i].Field? ==> IsGuidField(ps[i].name)
  }

  lemma {:induction false} RenderAppend(a: seq<Block>, b: seq<Block>, info: InstanceInfo, escape: string -> string)
    ensures RenderPolicy(a + b, info, escape) == RenderPolicy(a, info, escape) + RenderPolicy(b, info, escape)
    decreases |a|
  {
    if a != [] {
      assert (a + b)[1..] == a[1..] + b;
      RenderAppend(a[1..], b, info, escape);
    } else {
      assert a + b == b;
    }
  }

  lemma {:induction false} FillSameGuids(ps: seq<Piece>, a: InstanceInfo, b: InstanceInfo, escape: string -> string)
    requires GuidPath(ps) && SameGuids(a, b)
    ensures Fill(ps, a, escape) == Fill(ps, b, escape)
    decreases |ps|
  {
    if ps != [] {
      assert GuidPath(ps[1..]) by {
        forall i | 0 <= i < |ps| - 1
          ensures ps[1..][i].Field? ==> IsGuidField(ps[1..][i].name)
        {
          assert ps[1..][i] == ps[i + 1];
        }
      }
      FillSameGuids(ps[1..], a, b, escape);
    }
  }

  lemma {:induction false} SpacedSameGuids(sts: seq<Stanza>, a: InstanceInfo, b: InstanceInfo, escape: string -> string)
    requires forall i | 0 <= i < |sts| :: GuidPath(sts[i].path)
    requires SameGuids(a, b)
    ensures RenderPolicy(Spaced(sts), a, escape) == RenderPolicy(Spaced(sts), b, escape)
    decreases |sts|
  {
    if sts != [] {
      var two := [Verbatim("\n"), Rule(sts[0])];
      assert two[1..][1..] == [];
      RenderAppend(two, Spaced(sts[1..]), a, escape);
      RenderAppend(two, Spaced(sts[1..]), b, escape);
      FillSameGuids(sts[0].path, a, b, escape);
      SpacedSameGuids(sts[1..], a, b, escape);
    }
  }

  /**
   * Without all three names the policy depends on the GUIDs alone: two
   * records that agree on them get the same text whatever their names.
   */
  lemma GuidPolicySameGuids(a: InstanceInfo, b: InstanceInfo, escape: string -> string)
    requires !HasNames(a) && !HasNames(b) && SameGuids(a, b)
    ensures GeneratePolicy(a, escape) == GeneratePolicy(b, escape)
  {
    GeneratePolicyRenders(a, escape);
    GeneratePolicyRenders(b, escape);
    GuidTemplateShape();
    SpacedSameGuids(GuidStanzas, a, b, escape);
  }

  lemma RenderCons(b: Block, bs: seq<Block>, info: InstanceInfo, escape: string -> string)
    ensures RenderPolicy([b] + bs, info, escape) == RenderBlock(b, info, escape) + RenderPolicy(bs, info, escape)
  {
    assert ([b] + bs)[1..] == bs;
  }

  /** Four blocks write their four texts in order. */
  lemma RenderFour(bs: seq<Block>, info: InstanceInfo, escape: string -> string)
    requires |bs| == 4
    ensures RenderPolicy(bs, info, escape) ==
      RenderBlock(bs[0], info, escape) + (RenderBlock(bs[1], info, escape)
      + (RenderBlock(bs[2], info, escape) + RenderBlock(bs[3], info, escape)))
  {
    var r3 := RenderBlock(bs[3], info, escape);
    assert bs[3..][1..] == [] && bs[3..][0] == bs[3];
    assert RenderPolicy(bs[3..], info, escape) == r3 + "";
    assert r3 + "" == r3;
    assert bs[2..][1..] == bs[3..] && bs[2..][0] == bs[2];
    assert RenderPolicy(bs[2..], info, escape) == RenderBlock(bs[2], info, escape) + r3;
    assert bs[1..][1..] == bs[2..] && bs[1..][0] == bs[1];
  }

  /**
   * The name-qualified policy's text, cut where the stray lines are: the
   * space's after the organization's bare GUID stanza, the organization's
   * before the last stanza.
   */
  lemma RenderWithNames(info: InstanceInfo, escape: string -> string)
    ensures RenderPolicy(WithNamesPolicy, info, escape) ==
      RenderPolicy([Verbatim("\n")] + Rules(NamedStanzas[..10]), info, escape)
      + (SpaceIdLines + (RenderBlock(Rule(NamedStanzas[10]), info, escape)
      + (OrgIdLines + RenderBlock(Rule(NamedStanzas[11]), info, escape))))
  {
    var head := [Verbatim("\n")] + Rules(NamedStanzas[..10]);
    var tail := [Verbatim(SpaceIdLines), Rule(NamedStanzas[10]), Verbatim(OrgIdLines), Rule(NamedStanzas[11])];
    RenderAppend(head, tail, info, escape);
    RenderFour(tail, info, escape);
  }

  /** Whatever surrounds them, two texts with another between them are both contained. */
  lemma ContainsBoth(h: string, x: string, r: string, y: string, t: string)
    ensures Contains(h + (x + (r + (y + t))), x) && Contains(h + (x + (r + (y + t))), y)
  {
    ContainsMiddle(h, x, r + (y + t));
    assert h + x + (r + (y + t)) == h + (x + (r + (y + t)));
    ContainsMiddle(h + (x + r), y, t);
    assert h + (x + r) + y + t == h + (x + (r + (y + t)));
  }

  /**
   * With all three names, the policy written carries the two stray
   * declaration lines verbatim: the space's just before the organization's
   * name-qualified wildcard stanza, the organization's just before its bare
   * GUID wildcard stanza.
   */
  lemma StrayLinesWritten(info: InstanceInfo, escape: string -> string)
    requires HasNames(info)
    ensures GeneratePolicy(info, escape) == Success(
      RenderPolicy([Verbatim("\n")] + Rules(NamedStanzas[..10]), info, escape)
      + (SpaceIdLines + (RenderBlock(Rule(NamedStanzas[10]), info, escape)
      + (OrgIdLines + RenderBlock(Rule(NamedStanzas[11]), info, escape)))))
    ensures Contains(GeneratePolicy(info, escape).value, SpaceIdLines)
    ensures Contains(GeneratePolicy(info, escape).value, OrgIdLines)
  {
    GeneratePolicyRenders(info, escape);
    RenderWithNames(info, escape);
    ContainsBoth(RenderPolicy([Verbatim("\n")] + Rules(NamedStanzas[..10]), info, escape), SpaceIdLines,
      RenderBlock(Rule(NamedStanzas[10]), info, escape), OrgIdLines, RenderBlock(Rule(NamedStanzas[11]), info, escape));
  }
}
