# Vault service broker: configuration, address normalisation and policy rendering

This project models the core of the HashiCorp Vault service broker for
Cloud Foundry in Dafny and proves properties of that model. It covers three
parts of the broker:

- **Address normalisation** (`Address`, main.go `normalizeAddr`). The
  operator's loosely written Vault address becomes an absolute URL. The
  scheme defaults to https. A host that Go's URL parser mistook for a
  scheme or for a path is moved back into the host. The path ends in
  exactly one '/'. Text the parser rejects comes back unchanged. Go's
  `url.Parse` and `(*url.URL).String` are modelled by a simplified parser
  `Parse` and a writer `Render`. They agree with Go's for text without
  '%', without characters Go refuses in a host, and without characters
  `String` escapes (see the `url.Parse` line under "Left out").
- **Configuration** (`Settings`, main.go `parseConfig`, `Configuration`,
  `Validate`, `credhubProcess`).
  - `Configuration` is a class whose fields the methods update in place.
  - The Credhub override loop is a method with a loop. It is proved
    against the function `Overrides`, and the rules of one iteration are
    stated by `FieldStepCases`.
  - `Validate` is proved against `MissingField` and `Fixed`.
  - `parseConfig` is proved against `Resolve`.
- **Policy rendering** (`Policy`, vault.go). The two ACL templates are built
  from a table of stanzas. `GeneratePolicy` chooses one, parses it with a
  model of the `html/template` parser restricted to `{{ .Name }}` actions,
  and executes it. Both templates are proved to parse and to render
  stanza by stanza. The GUID-only template names GUIDs only. The
  name-qualified template pairs every GUID stanza with a name-GUID
  stanza. It also writes the two Go declaration lines that sit inside its
  text, character for character.

Shared string helpers are in `Text` (Go's `strings.Index`, `LastIndex`,
`TrimRight`, `Split`, `ToUpper`, `ToLower`, `Contains`,
`strconv.ParseBool` and `strconv.Quote`). `Option` and `Result` are in `Wrappers`.

`normalizeAddr` is not idempotent: "///x" normalises to "https:////x/",
and normalising that again gives "https:///x/".
`Address.NormalizeTripleSlashNotIdempotent` proves this for every such
`x`. `Address.NormalizeIdempotent` proves idempotence for the addresses
whose normalised form settles.

## Model

| member | source | states |
|---|---|---|
| Text.Find | main.go:126 | the first index of the separator, or the length when it is absent; no separator before it |
| Text.FindLast | main.go:107 | the last index of a character, or -1; none after it |
| Text.TrimRight | main.go:138 | a prefix of the input that does not end in the cut character, with only cut characters after it |
| Text.TrimRightUnique | main.go:138 | those three properties determine TrimRight's result |
| Text.TrimRightThenAppend | main.go:138 | trimming and appending one '/' leaves exactly one trailing '/', and trimming again gives the same stem |
| Text.EndsInOneFixed | main.go:138 | a path already ending in exactly one '/' is unchanged by the trailing-slash fix |
| Text.Split | main.go:248 | the pieces are non-empty in number, hold no separator, and join back to the input |
| Text.SplitJoin | main.go:248 | splitting a join of separator-free pieces gives the pieces back |
| Text.ToUpperChars | main.go:217 | upper-casing keeps the length and maps each character on its own |
| Text.ToLower | main.go:220 | lower-casing keeps the length and maps each character on its own |
| Text.ParseBoolFormat | main.go:240 | `strconv.ParseBool` reads back "true" and "false", and their upper-case forms, as the booleans they spell |
| Text.UnquoteQuote | main.go:241-242 | `strconv.Quote`'s text, as the bool error writes it, reads back as the original value: nothing is lost in the quoting |
| Text.ContainsMiddle | vault.go:67-73 | a text contains every part it was built from |
| Address.GetScheme | main.go:107 | an error exactly on a leading ':'; otherwise either no scheme and the whole text, or a valid scheme followed by ':' and the rest |
| Address.Parse | main.go:107-110 | every URL it returns satisfies the parser's invariant (lower-case scheme; no '#' or '?' in its parts; opaque parts not rooted) |
| Address.ParseRender | main.go:140 | `Render` (`String`) and `Parse` are inverse: writing an absolute URL and parsing it back gives the URL with its path rooted, or the host's port error |
| Address.ParseRenderOpaque | main.go:140 | writing an opaque URL and parsing it back gives it again |
| Address.NormalizeAddr | main.go:102-110 | the empty string and unparsable text are returned unchanged |
| Address.NormalizeUrl | main.go:112-138 | all the fixes together: https by default; a dotted scheme becomes the host, with the opaque part as its port; an empty host is the path's first segment; the path ends in exactly one '/' with the same stem; user, query and fragment untouched |
| Address.HostFromPath | main.go:125-136 | a set host leaves the URL alone; otherwise only host and path change, and they split the old path: the host holds no '/' and host, '/' and the new path give back the old path, or, with no '/' in it, the whole path is the host and the path becomes "/" |
| Address.HostFromPathFind | main.go:126-135 | an empty host becomes the path before its first '/' (`strings.Index`), and the path becomes what follows that segment |
| Address.CollapseSlashes | main.go:138 | only the path changes; it ends in exactly one '/' and keeps its stem |
| Address.NormalizeUrlNormal | main.go:112-138 | every normalised URL has a lower-case dotless scheme, a path ending in exactly one '/', and parts free of '#' and '?' |
| Address.NormalizeIdempotent | main.go:102-141 | normalising twice equals normalising once, for addresses whose normalised form settles |
| Address.NormalizeTripleSlashNotIdempotent | main.go:125-140 | "///x" normalises to "https:////x/", which normalises again to the different "https:///x/" |
| Address.NormalizeBareHost | main.go:125-131 | a bare host name h becomes "https://h/" |
| Address.NormalizeDottedHostPort | main.go:116-123 | "host.name:port" becomes "https://host.name:port/" with the host lower-cased |
| Address.NormalizeKeepsOpaque | main.go:112-140 | a dotless scheme followed by an unrooted rest stays opaque and only its scheme is lower-cased |
| Address.NormalizeKeepsColonPath | main.go:107-110 | text whose first path segment holds a ':' fails to parse, and it is returned unchanged |
| Address.NormalizeSchemeHostPath | main.go:138-140 | with a scheme, a host and a rooted path, only the trailing slashes change |
| Address.NormalizeClosingSlashes | main.go:138 | a run of closing slashes collapses to one |
| Address.NormalizeSchemeHostRoot | main.go:138-140 | "scheme://host/" is already normal |
| Address.NormalizeSchemeHostPort | main.go:138-140 | "scheme://host:port" only gains the closing '/' |
| Address.NormalizeParsedEmptyHost | main.go:125-136 | a parsed https URL with no host and a rooted path gets the empty first segment as its host |
| Address.NormalizeAddrSchemeCase | main_test.go:22-26 | "www.example.com" becomes "https://www.example.com/" |
| Address.NormalizeAddrTrailingSlashCase | main_test.go:27-31 | "https://www.example.com/foo" gains a closing '/' |
| Address.NormalizeAddrTrailingSlashManyCase | main_test.go:32-36 | "https://www.example.com/foo///////" ends in a single '/' |
| Address.NormalizeAddrKeepsSchemeCase | main_test.go:37-41 | "ftp://foo.com/" keeps its scheme and is unchanged |
| Address.NormalizeAddrPortCase | main_test.go:42-46 | "www.example.com:8200" becomes "https://www.example.com:8200/" |
| Address.NormalizeAddrPortSchemeCase | main_test.go:47-51 | "http://www.example.com:8200" becomes "http://www.example.com:8200/" |
| Address.NormalizeAddrAddressPortCase | main.go:107-110 | "127.0.0.1:8200" is returned unchanged: a digit cannot start a scheme, so the colon in the first segment makes the parse fail |
| Address.NormalizeAddrNamePortCase | main.go:112-140 | "localhost:8200" is read as a scheme with an opaque part and is returned unchanged |
| Address.NormalizeDefaultVaultAddr | main.go:169 | the default Vault address only gains its closing '/' |
| Settings.FieldsComplete | main.go:159-177 | the field table lists every field of Configuration exactly once |
| Settings.GetSet | main.go:237-248 | setting a field changes that field, to the value given, and no other |
| Settings.SameFields | main.go:159-177 | two records that agree on every field are equal |
| Settings.Message | main.go:181-189 | a missing-field error reads "missing " followed by the variable name |
| Settings.Key | main.go:217 | the Credhub name is the prefix followed by the field's tag, each letter of it upper-cased on its own |
| Settings.FieldStep | main.go:216-251 | a value put into a field has that field's kind |
| Settings.FieldStepCases | main.go:217-251 | one iteration aborts exactly on a lookup error without "not found" in any case, a non-string value, or a bad boolean; it skips exactly on no value or an empty string; otherwise it sets the string, the comma-separated pieces, or the parsed boolean |
| Settings.OverridesError | main.go:215-253 | the loop fails exactly when some field's iteration aborts |
| Settings.OverridesValue | main.go:215-253 | `Overrides` (the loop): when it succeeds, each field holds its Credhub value if it has one and keeps its old value if not |
| Settings.OverridesFirstError | main.go:215-253 | the loop stops with the first aborting field's error and keeps what the fields before it set |
| Settings.OverridePut | main.go:236-248 | when the loop succeeds, a field Credhub set holds the value it was set to |
| Settings.MissingField | main.go:181-189 | the first empty required field in the order user name, password, token is the error; none when all three are set |
| Settings.FixPort | main.go:192-194 | the port starts with ':', is unchanged if it already did, and otherwise gains one ':' |
| Settings.FixPortIdempotent | main.go:192-194 | fixing the port twice equals fixing it once, and exactly one ':' is added |
| Settings.Fixed | main.go:191-199 | the port is fixed, both addresses are normalised, an empty advertise address takes the Vault address, and nothing else changes |
| Settings.FixedFields | main.go:191-199 | any record with the fixed port and addresses and the other fields unchanged is the fixed record |
| Settings.FixedKeeps | main.go:191-199 | the fixups touch only the port and the two addresses |
| Settings.FixedIdempotent | main.go:191-199 | validating twice equals validating once, for addresses that settle |
| Settings.ResolveEnvFailure | main.go:145-147 | an environment error is returned with its own message |
| Settings.ResolveIgnoresCredhubWithoutUrl | main.go:148-153 | without a Credhub URL the result does not depend on Credhub and is plain validation |
| Settings.ResolveOverrideError | main.go:148-152 | an aborting override is the error, even when validation would also fail |
| Settings.ResolveOverrides | main.go:148-156 | `Resolve` (`parseConfig`): with a Credhub URL, success is the validation of the overridden record |
| Settings.ResolveOverrideWins | main.go:148-156 | a Credhub value beats the environment's, and a skipped field keeps the environment's |
| Settings.ResolveOverridePort | main.go:148-155 | a port from Credhub still gets its ':' prefix |
| Settings.DefaultsNeedRequired | main.go:159-177 | `Defaults`: the three required fields have no default, so a record of defaults alone fails with the user name missing, and the default port already has its ':' |
| Settings.ResolveDefaults | main_test.go:64-116 | with only the required fields set, every default comes out as declared, and both addresses are "https://127.0.0.1:8200/" |
| Settings.Configuration.constructor | main.go:144-145 | the new configuration holds the values the environment gave |
| Settings.Configuration.Assign | main.go:237-248 | one field takes the value and every other field is unchanged |
| Settings.Configuration.VisitField | main.go:216-251 | one iteration does to the configuration what FieldStep says: abort or skip leaves it unchanged, put sets that one field |
| Settings.Configuration.CredhubProcess | main.go:207-254 | the error and the final fields are the outcome of Overrides over all fields in declaration order |
| Settings.Configuration.Validate | main.go:179-201 | the error is MissingField's, and then nothing changes; otherwise the configuration becomes Fixed of its old value |
| Settings.Configuration.FixUp | main.go:191-199 | the port is fixed and both addresses are normalised, the advertise address defaulting to the Vault address |
| Settings.ParseConfig | main.go:143-157 | it fails exactly when Resolve fails, with the same error; otherwise it returns a fresh configuration holding Resolve's record |
| Policy.CloseAt | vault.go:87 | the position of the first "}}" after an action opens, or the end when there is none |
| Policy.ParseText | vault.go:87 | text without "{{" parses as a literal in front of what follows |
| Policy.ParseField | vault.go:87 | a `{{ .Name }}` action parses as a field piece in front of what follows |
| Policy.ParseActionAt | vault.go:87 | an action whose inside names a field parses as that field |
| Policy.ParseUnclosed | vault.go:87-90 | an action that never closes is a parse error, which is passed through |
| Policy.ParseUnexpected | vault.go:87-90 | an action that is not a field reference is a parse error, which is passed through |
| Policy.ParseSource | vault.go:87 | `Parse`: the text written from sound pieces parses back to those pieces, with adjacent literals joined |
| Policy.ExecutePrepend | vault.go:91 | a literal in front adds its text in front of the output |
| Policy.ExecuteCompact | vault.go:91 | joining adjacent literals does not change the output |
| Policy.ExecuteAppend | vault.go:91 | executing two templates in sequence writes their outputs in sequence |
| Policy.ExecuteFill | vault.go:91 | pieces that name known fields execute without error, writing literals as they are and field values escaped |
| Policy.ExecuteBlock | vault.go:91 | a well-formed stanza executes to its rendered text |
| Policy.ExecutePolicy | vault.go:91 | `Execute`: a well-formed policy executes without error to its rendered text |
| Policy.SoundPolicy | vault.go:9-77 | the text of a well-formed policy holds no stray "{{" |
| Policy.PoliciesWellFormed | vault.go:9-77 | both templates name only fields of instanceInfo and hold no stray braces |
| Policy.GeneratePolicyRenders | vault.go:82-92 | `GeneratePolicy`: the name-qualified template is chosen exactly when all three names are non-empty; the chosen template always parses, so the result is its rendering |
| Policy.GuidTemplateShape | vault.go:9-33 | the GUID-only template has 6 stanzas, a plain and a wildcard stanza per GUID in the order instance, space, organization; plain stanzas list only, wildcard stanzas get read and list for the organization and create, read, update, delete and list otherwise |
| Policy.NamedPairs | vault.go:36-77 | stanza 2i of the name-qualified template is GUID stanza i on the name-GUID path, and stanza 2i+1 is GUID stanza i |
| Policy.NamedTemplateShape | vault.go:36-77 | the name-qualified template has 12 stanzas, in name-GUID and GUID pairs |
| Policy.GuidPolicySameGuids | vault.go:83-86 | when a name is missing, the policy depends only on the three GUIDs |
| Policy.RenderWithNames | vault.go:64-76 | the name-qualified policy writes the first ten stanzas, the space ID lines, the eleventh stanza, the org ID lines and the twelfth stanza |
| Policy.StrayLinesWritten | vault.go:67-73 | with all names set, the two Go declaration lines inside the template appear in the policy character for character |

## Left out

- `envconfig.Process` is not part of this model. Its result, a record or an error message, is an input to `Resolve` and `ParseConfig`.
- The Credhub client and its HTTP client (main.go:209) are not part of this model. `GetLatestByName` is a lookup function from a credential name to an optional value and an optional error.
- Go reflection over the struct: the field table (`Fields`, `Tag`, `KindOf`) stands in for it.
- The `default:` branch of the kind switch (main.go:249-250) cannot be reached, because every field is a bool, a string or a string slice. The model has no such case.
- Settings.Message: the type name `reflect.TypeOf` prints for a non-string credential is an input, not computed. `strconv.Quote` is modelled for ASCII; other characters are written as they are, where Go escapes the non-printable ones.
- `url.Parse` is modelled without percent-decoding, `RawPath`, `OmitHost`, IPv6 zone identifiers, or userinfo character validation. Host validation checks only the port after the last ':'. So "https://host/%zz" (a bad escape) and "https://exa mple.com" (a space in the host), which Go rejects and returns unchanged, are normalised by the model.
- `(*url.URL).String` is modelled without escaping. Go escapes some characters in a host or path: "foo.com:80/x" becomes "https://foo.com:80%2Fx/" in Go, and "https://foo.com:80/x/" in the model.
- `strings.ToUpper` and `strings.ToLower` are modelled for ASCII letters only.
- `html/template` is modelled only for text and `{{ .Name }}` field actions. Other actions, trim markers, comments, pipelines and the template's own error texts are simplified. Contextual escaping is a function parameter `escape`.
- The writer `w` of `GeneratePolicy` is replaced by the returned text. Partial output before an error is not modelled.
- The template texts are built from a stanza table (`GuidStanzas`, `NamedStanzas`, the two stray-line constants). That the built text equals the Go literal character for character is not proved.
- `instanceInfo`'s declaration is not part of this model. Its six fields are inferred from the template actions.
- `main`, the HTTP server, the broker API and the Vault client are not part of this model.
- Address.NormalizeIdempotent: proved only for addresses whose normalised form settles (`Settles`), because the Go code is not idempotent in general (see Address.NormalizeTripleSlashNotIdempotent).
- Settings.FixedIdempotent: proved only when both addresses settle, for the same reason.
