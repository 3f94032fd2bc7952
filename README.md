# UDF documentation templating (noumena-docs `_static/noumena.js`)

The page script `list_all_projects` fetches the projects of a documentation API
and, for each project, its user-defined functions (UDFs). It appends them to a
`udfs` section of a Sphinx-style page. This project models the deterministic
part of that script in Dafny and proves what its templating guarantees:

- **Signature** (`this.signature`): the loop over `ordered_function_params` with
  its `first` flag builds the parameter tokens `[`, `, `, name, `]`. The loop is
  the method `SignatureParams`, proved equal to the parameter-by-parameter
  definition `ParamTokens`. Lemmas give the exact tokens of each parameter, the
  token and punctuation counts, and the parameter names in order. The anchor id
  `PROJECT:{id}_FUNCTION:{UPPER(name)}`, the self-link `#id` and the displayed
  name `UPPER(module_name).UPPER(name)` are functions with lemmas. One lemma
  shows the anchor is unique up to letter case of the name. The anchor does not
  include `module_name`, so two UDFs of one project with the same name in
  different modules get the same `dt` id.
- **Parameter list** (`this.ordered_function_params`): one item per parameter,
  in order, with the markup `<strong>name</strong> - (data_type) description`.
  A parser reads the three fields back.
- **Project loop**: `ListAllProjects` is the loop over the project list. It
  takes each project with the abstract outcome of its function fetch (`Ok(udfs)`
  or `Failed`) and appends headings and definition blocks to an item sequence.
  It is proved equal to `Render`. `Render` is then related to an independent
  front-to-back description: the sections of the projects before the first
  failed fetch.
- **API origin**: `ApiOrigin` replaces the first `:8008` of the page origin by
  `:9000`, as `String.prototype.replace` does with a string pattern.

Upper-casing is ASCII-only. Project ids are non-negative integers written out
in decimal. A JavaScript template literal prints a Number that way only below
10^21 and only when JSON parsing kept it exact; see Left out.

The code means to skip a project whose function fetch fails: the `.catch`
handler sets `skip` (line 129), and line 133 tests it. As written, the handler
returns `undefined`, so `modules` is `undefined` and `modules.data` at line 132
throws before `skip` is read, ending the whole loop. The model follows the
code as written (`Render`, `ListAllProjects`). The intended skip is modelled
separately (`RenderSkipping`); see Findings.

Files: `strings.dfy` (upper-casing, decimal ids, splitting at a character),
`seqs.dfy` (concatenating per-element pieces), `api.dfy` (the API records),
`signature.dfy`, `params.dfy`, `projects.dfy`, `origin.dfy`.

## Model

| member | source | states |
|---|---|---|
| Strings.Upper | _static/noumena.js:66-70 | `toUpperCase` keeps the length, upper-cases each ASCII letter in place, leaves every other character unchanged and leaves no ASCII lower-case letter |
| Strings.Decimal | _static/noumena.js:66 | the text `${project_id}` gives for an id: non-empty and made of decimal digits only |
| Strings.DecimalRoundTrip | _static/noumena.js:66 | the decimal text of a project id reads back as that id |
| Strings.DecimalInjective | _static/noumena.js:141 | two project ids render to the same text exactly when they are equal |
| Signature.ParamTokens | _static/noumena.js:49-64 | the `params` array defined parameter by parameter (with `Chunk` for one parameter); every token is `[`, `, `, a parameter name or `]` |
| Signature.PushParam | _static/noumena.js:50-63 | one pass of the loop body appends exactly the parameter's chunk and clears `first` exactly on a required parameter |
| Signature.SignatureParams | _static/noumena.js:45-64 | the loop with the `first` flag produces exactly `ParamTokens` of the parameters |
| Signature.ParamTokensAt | _static/noumena.js:51-63 | after the tokens of the parameters before it, an optional parameter contributes exactly `[`, `, `, name, `]`, in any position including the first; a required one contributes its name, preceded by one `, ` exactly when a required parameter came before it (optional ones never clear `first`) |
| Signature.ParamTokensLength | _static/noumena.js:49-64 | token count + (1 if some parameter is required) = 4·#optional + 2·#required |
| Signature.ParamTokensNames | _static/noumena.js:49-64 | the names among the tokens are exactly the parameter names, once each, in input order |
| Signature.ParamTokensPunctuation | _static/noumena.js:47-63 | `[` and `]` occur once per optional parameter; `, ` occurs once per optional parameter plus once between consecutive required ones |
| Signature.ParamTokensExamples | _static/noumena.js:51-63 | a lone optional parameter renders `[`, `, `, name, `]`; two required parameters `a`, `b` render `a`, `, `, `b` with no brackets |
| Signature.AnchorId | _static/noumena.js:66 | the `dt` id starts with `PROJECT:`, has the length of its four parts and ends with the upper-cased function name |
| Signature.DisplayName | _static/noumena.js:67-70 | the `sig-name` text is as long as the name, plus the module name and a dot when there is one |
| Signature.SignatureOf | _static/noumena.js:66-76 | the `dt` has the anchor id, four children besides the parameter tokens, and ends with a link to `#` + its own id |
| Signature.RenderSignature | _static/noumena.js:45-77 | the `dt` built for a UDF is `SignatureOf`: id, name element, parentheses around the parameter tokens, self-link |
| Signature.AnchorIdUnique | _static/noumena.js:66 | two anchor ids are equal exactly when the project ids are equal and the names agree after upper-casing |
| Signature.AnchorIdExample | _static/noumena.js:66 | project 7's function `foo` gets the anchor `PROJECT:7_FUNCTION:FOO` |
| Signature.DisplayNameParts | _static/noumena.js:67-70 | the displayed name ends with UPPER(name); without a module name it is UPPER(name); with one it is UPPER(module_name), a dot, then UPPER(name) |
| Signature.SignatureLayout | _static/noumena.js:66-75 | the term's id is the anchor id; its children are the name, `(`, the parameter tokens, `)` and a link whose href is `#` + id |
| ParamList.ParamText | _static/noumena.js:89 | a parameter's markup starts with `<strong>`, is 23 characters longer than its three fields and ends with the description |
| ParamList.ParamItems | _static/noumena.js:84-94 | the list the function returns, defined parameter by parameter: one item per parameter, item i being the markup of parameter i |
| ParamList.DescribeParams | _static/noumena.js:84-94 | one item per parameter, in order, item i being `<strong>name</strong> - (data_type) description` of parameter i |
| ParamList.ParamTextRoundTrip | _static/noumena.js:89 | a parameter's item reads back as its name, data type and description |
| Origin.ReplaceFirst | _static/noumena.js:113 | `replace` with a string pattern: the string itself when the pattern does not occur, otherwise the text before the first occurrence, the replacement, and the text after that occurrence |
| Origin.ApiOrigin | _static/noumena.js:113 | the API origin has the page origin's length, since both ports are five characters |
| Origin.IndexOfFrom | _static/noumena.js:113 | the index found is an occurrence of the pattern with none before it; None means the pattern does not occur |
| Origin.ApiOriginUnchanged | _static/noumena.js:113 | the origin is unchanged exactly when it contains no `:8008` |
| Origin.ApiOriginRewritesFirst | _static/noumena.js:113 | when `:8008` first occurs at k, the result has the same length, `:9000` at k and the origin's characters everywhere else |
| Origin.ApiOriginKeepsLater | _static/noumena.js:113 | a second, non-overlapping `:8008` survives the rewrite |
| ProjectList.HeadingFor | _static/noumena.js:140-144 | the `h2` links to `#` + its own id, and its id is `PROJECT_` followed by digits that read back as the project id |
| ProjectList.DefinitionOf | _static/noumena.js:147-161 | the `dl` block's term has the UDF's anchor id, it has one parameter item per parameter, and its return type is `Boolean` |
| ProjectList.RenderDefinition | _static/noumena.js:146-162 | the `dl` block of a UDF holds its signature term, its description, its parameter items and the return type `Boolean` |
| ProjectList.AppendBlocks | _static/noumena.js:146-163 | the inner loop appends exactly one definition block per UDF, in list order |
| ProjectList.RenderProject | _static/noumena.js:120-163 | one project's step throws exactly when its fetch failed; otherwise it appends nothing for an empty list and a heading followed by the UDF blocks for a non-empty one |
| ProjectList.Render | _static/noumena.js:119-164 | the section's state after the loop has seen the entries one at a time; a loop that did not throw saw only successful fetches |
| ProjectList.ListAllProjects | _static/noumena.js:119-164 | the project loop's appended items and abort flag are `Render` of the entries |
| ProjectList.RenderStaysAborted | _static/noumena.js:128-132 | once the loop has thrown, later projects change nothing |
| ProjectList.RenderBeforeFailure | _static/noumena.js:119-135 | the output is the concatenated sections of the projects before the first failed fetch, in API order, and the loop throws exactly when there is a failed fetch |
| ProjectList.RenderAbortsIffFetchFails | _static/noumena.js:122-132 | the loop throws exactly when some project's function fetch failed |
| ProjectList.RenderContents | _static/noumena.js:133-163 | the headings are one per project before the first failure whose list is non-empty (an empty list adds nothing); the blocks are one per UDF of those projects, in list order |
| ProjectList.RenderHeadingsFollowed | _static/noumena.js:133-163 | every project heading is immediately followed by a definition block |
| ProjectList.HeadingIdsDistinct | _static/noumena.js:141 | `PROJECT_{id}` headings are distinct for distinct projects and never equal a UDF anchor id |
| ProjectList.FailedFetchHidesLaterProjects | _static/noumena.js:128-134 | a failed fetch followed by a project with one UDF renders nothing and throws, where skipping would render that project |
| ProjectList.RenderSkipping | _static/noumena.js:121-135 | the loop as the `skip` flag intends it: its output starts with everything the as-written loop shows, and is exactly that when the loop does not throw |
| ProjectList.RenderSkippingContents | _static/noumena.js:121-135 | with the intended skip, every project's section appears in order: headings for successful non-empty lists, one block per UDF, each heading followed by a block |

## Left out

- The network requests (`fetch`, `res.json()`, `await`) are left out. Each project's function fetch is an input value, `Ok(udfs)` or `Failed`. The project list is an input sequence, so a failure of the top-level project request is not modelled.
- DOM construction is left out. This covers the `$E` helper, `classList`, `innerText`, the `¶` link texts and `append`. It also covers removing and recreating the `udfs` section with its `h1`, so "rendering twice leaves one section" is not modelled. Rendered output is a sequence of tokens and items.
- `update_source_links` and the commented-out `DOMContentLoaded` bootstrap are not modelled; they only touch the DOM.
- `toUpperCase` is modelled on ASCII letters only. Unicode case mapping, which can change a string's length, is not modelled.
- HTML parsing of the `innerHTML` markup is not modelled. A parameter item is the markup string itself.
- ParamList.ParamTextRoundTrip: only for names without `<` and data types without `)`, because the markup is not escaped and those characters read as its own.
- The project's `module_name` is upper-cased at line 138 into a variable that is never used afterwards. `Project.moduleName` is carried but has no part in the rendered items.
- A `module_name` that is present but not a string (e.g. JSON `null`) passes the `!== undefined` test and makes `toUpperCase` throw. At line 138 this ends the loop before the project's heading. At line 67 it ends the loop after the heading and the project's earlier blocks. The model's `Option<string>` covers only an absent field or a string, so this exception path is not modelled.
- Strings.Decimal: models only project ids that are non-negative integers below 10^21 and exactly representable as a JavaScript Number (at most 2^53). Larger Numbers print in exponent form (`1e+21`), larger JSON integers are rounded when parsed, and other JSON values would render differently in the template literal.
- Malformed API payloads (a response without `data`, a UDF without `ordered_function_params`) are not modelled. Those fields are always present in the records.
- `ReplaceFirst` treats the replacement literally. `$` substitution patterns do not arise with `:9000`.

## Findings

| source | as written | input that shows it | evidently intended | confidence | as-written member | corrected member |
|---|---|---|---|---|---|---|
| _static/noumena.js:128-134 | the `.catch` handler sets `skip` and yields `undefined`; `modules.data` is read before `skip` is tested, so it throws and ends the loop | a failed fetch for project 1, then project 2 with one UDF: nothing for project 2 is appended | skip only the failed project and go on with project 2 | not executed | ProjectList.FailedFetchHidesLaterProjects | ProjectList.RenderSkippingContents |
