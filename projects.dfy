/**
 * The project loop of `list_all_projects`: for each project, in the order the
 * API lists them, the outcome of fetching its function list decides what is
 * appended to the `udfs` section. A non-empty list yields one heading and one
 * definition block per UDF; an empty list yields nothing; a failed fetch
 * leaves `modules` undefined, so reading `modules.data` throws and the whole
 * loop stops there, keeping whatever was appended before.
 */
module ProjectList {
  import opened Strings
  import opened Api
  import opened Signature
  import opened ParamList
  import opened Seqs

  /** What the `/v1/projects/{id}/functions` request produced for one project. */
  datatype FetchResult = Ok(functions: seq<Udf>) | Failed

  datatype Entry = Entry(project: Project, fetch: FetchResult)

  /** A `dl class="py function"` block: the term and the `dd` with its fields. */
  datatype Definition = Definition(signature: Term, description: string, params: seq<string>, returnType: string)

  /** One element appended to the `udfs` section. */
  datatype Item = Heading(id: string, title: string, href: string) | Block(def: Definition)

  /** The appended items, and whether the loop stopped with an exception. */
  datatype Rendered = Rendered(items: seq<Item>, aborted: bool)

  const RETURN_TYPE := "Boolean"

  /** The `h2` for a project: id `PROJECT_{id}`, a title and a link to itself. */
  function HeadingFor(projectId: nat): (h: Item)
    ensures h.Heading? && h.href == "#" + h.id
    ensures |h.id| > 8 && h.id[..8] == "PROJECT_"
    ensures forall i :: 8 <= i < |h.id| ==> IsDigit(h.id[i])
    ensures DecimalValue(h.id[8..]) == projectId
  {
    DecimalRoundTrip(projectId);
    var id := "PROJECT_" + Decimal(projectId);
    Heading(id, "Project " + Decimal(projectId) + " UDFs", "#" + id)
  }

  /** The `dl` block of UDF `m`: its term, description, one item per parameter and `Boolean`. */
  function DefinitionOf(projectId: nat, m: Udf): (d: Definition)
    ensures d.signature.id == AnchorId(projectId, m.name)
    ensures |d.params| == |m.params|
    ensures d.returnType == RETURN_TYPE
  {
    Definition(SignatureOf(m, projectId), m.description, ParamItems(m.params), RETURN_TYPE)
  }

  /** The `dl` block built for UDF `m` of project `projectId`. */
  method RenderDefinition(m: Udf, projectId: nat) returns (d: Definition)
    ensures d == DefinitionOf(projectId, m)
  {
    var signature := RenderSignature(m, projectId);
    var params := DescribeParams(m.params);
    assert params == ParamItems(m.params);
    d := Definition(signature, m.description, params, "Boolean");
  }

  function BlocksOf(projectId: nat, ms: seq<Udf>): seq<Item>
    decreases |ms|
  {
    if ms == [] then [] else BlocksOf(projectId, ms[..|ms| - 1]) + [Block(DefinitionOf(projectId, ms[|ms| - 1]))]
  }

  /** The definitions of the UDFs `ms`, in list order. */
  function DefinitionsOf(projectId: nat, ms: seq<Udf>): seq<Definition>
    decreases |ms|
  {
    if ms == [] then [] else DefinitionsOf(projectId, ms[..|ms| - 1]) + [DefinitionOf(projectId, ms[|ms| - 1])]
  }

  /** What one successfully fetched function list contributes. */
  function SectionOf(projectId: nat, ms: seq<Udf>): seq<Item>
  {
    if ms == [] then [] else [HeadingFor(projectId)] + BlocksOf(projectId, ms)
  }

  /** The state of the `udfs` section after the loop has seen the entries `es`, one at a time. */
  function Render(es: seq<Entry>): (r: Rendered)
    ensures !r.aborted ==> forall i :: 0 <= i < |es| ==> es[i].fetch.Ok?
    decreases |es|
  {
    if es == [] then Rendered([], false)
    else
      var init := es[..|es| - 1];
      assert forall i :: 0 <= i < |init| ==> init[i] == es[i];
      var prev := Render(init);
      var last := es[|es| - 1];
      if prev.aborted then prev
      else match last.fetch
        case Failed => Rendered(prev.items, true)
        case Ok(ms) => Rendered(prev.items + SectionOf(last.project.id, ms), false)
  }

  /** Once the loop has stopped, later entries change nothing. */
  lemma {:induction false} RenderStaysAborted(es: seq<Entry>, k: nat)
    requires k <= |es| && Render(es[..k]).aborted
    ensures Render(es) == Render(es[..k])
    decreases |es| - k
  {
    if k == |es| {
      assert es[..k] == es;
    } else {
      var init := es[..|es| - 1];
      assert init[..k] == es[..k];
      RenderStaysAborted(init, k);
    }
  }

  /** One more entry seen by the loop. */
  lemma RenderStep(es: seq<Entry>, i: nat)
    requires i < |es| && !Render(es[..i]).aborted
    ensures es[i].fetch.Failed? ==> Render(es[..i + 1]) == Rendered(Render(es[..i]).items, true)
    ensures es[i].fetch.Ok? ==> Render(es[..i + 1]) == Rendered(Render(es[..i]).items + EntrySection(es[i]), false)
  {
    assert es[..i + 1][..i] == es[..i];
  }

  lemma BlocksOfStep(projectId: nat, ms: seq<Udf>, j: nat)
    requires j < |ms|
    ensures BlocksOf(projectId, ms[..j + 1]) == BlocksOf(projectId, ms[..j]) + [Block(DefinitionOf(projectId, ms[j]))]
  {
    assert ms[..j + 1][..j] == ms[..j];
  }

  /** The inner loop: one definition block per UDF, appended in list order. */
  method AppendBlocks(udf: seq<Item>, id: nat, udfList: seq<Udf>) returns (out: seq<Item>)
    ensures out == udf + BlocksOf(id, udfList)
  {
    out := udf;
    var j := 0;
    while j < |udfList|
      invariant 0 <= j <= |udfList|
      invariant out == udf + BlocksOf(id, udfList[..j])
    {
      var dl := RenderDefinition(udfList[j], id);
      BlocksOfStep(id, udfList, j);
      AppendAssoc(udf, BlocksOf(id, udfList[..j]), [Block(dl)]);
      out := out + [Block(dl)];
      j := j + 1;
    }
    assert udfList[..j] == udfList;
  }

  /**
   * The body of the project loop for one project: fetch outcome, `skip`
   * check, heading, blocks. `thrown` says that reading `modules.data` threw.
   */
  method RenderProject(udf: seq<Item>, entry: Entry) returns (out: seq<Item>, thrown: bool)
    ensures thrown <==> entry.fetch.Failed?
    ensures out == if thrown then udf else udf + EntrySection(entry)
  {
    var id := entry.project.id;
    var skip := false;
    var modules: Option<seq<Udf>> := None;
    if entry.fetch.Failed? {
      // the `.catch` handler sets `skip` and yields `undefined`
      skip := true;
    } else {
      modules := Some(entry.fetch.functions);
    }
    if modules.None? {
      // `modules.data` on `undefined` throws before `skip` is looked at
      return udf, true;
    }
    var udfList := modules.value;
    if skip || |udfList| == 0 {
      return udf, false;
    }
    out := udf + [HeadingFor(id)];
    out := AppendBlocks(out, id, udfList);
    thrown := false;
  }

  /** The project loop, with `udf` standing for the appended children of the `udfs` section. */
  method ListAllProjects(es: seq<Entry>) returns (r: Rendered)
    ensures r == Render(es)
  {
    var udf: seq<Item> := [];
    var i := 0;
    while i < |es|
      invariant 0 <= i <= |es|
      invariant Render(es[..i]) == Rendered(udf, false)
    {
      RenderStep(es, i);
      var thrown;
      udf, thrown := RenderProject(udf, es[i]);
      if thrown {
        RenderStaysAborted(es, i + 1);
        return Rendered(udf, true);
      }
      i := i + 1;
    }
    assert es[..i] == es;
    r := Rendered(udf, false);
  }

  // ---------------------------------------------------------------------------
  // An independent description of the output

  /** Index of the first entry whose fetch failed, or |es| when none did. */
  function FirstFailure(es: seq<Entry>): (r: nat)
    ensures r <= |es|
    ensures r < |es| ==> es[r].fetch.Failed?
    ensures forall j :: 0 <= j < r ==> es[j].fetch.Ok?
    decreases |es|
  {
    if es == [] then 0
    else if es[0].fetch.Failed? then 0
    else 1 + FirstFailure(es[1..])
  }

  function EntrySection(e: Entry): seq<Item>
  {
    match e.fetch
    case Failed => []
    case Ok(ms) => SectionOf(e.project.id, ms)
  }

  /** The sections of the entries, concatenated front to back. */
  function Sections(es: seq<Entry>): seq<Item>
  {
    ConcatMap(EntrySection, es)
  }

  lemma SectionsSnoc(es: seq<Entry>, e: Entry)
    ensures Sections(es + [e]) == Sections(es) + EntrySection(e)
  {
    ConcatMapSnoc(EntrySection, es, e);
  }

  lemma SectionsCons(es: seq<Entry>)
    requires es != []
    ensures Sections(es) == EntrySection(es[0]) + Sections(es[1..])
  {
  }

  lemma {:induction false} FirstFailureSnoc(es: seq<Entry>, e: Entry)
    ensures FirstFailure(es + [e]) ==
      if FirstFailure(es) < |es| then FirstFailure(es)
      else if e.fetch.Failed? then |es| else |es| + 1
    decreases |es|
  {
    if es == [] {
      assert [e][1..] == [];
    } else {
      assert (es + [e])[0] == es[0];
      assert (es + [e])[1..] == es[1..] + [e];
      FirstFailureSnoc(es[1..], e);
    }
  }

  /**
   * The loop's output is the sections of the entries before the first failed
   * fetch, in entry order, and it stops with an exception exactly when some
   * fetch failed.
   */
  lemma {:induction false} RenderBeforeFailure(es: seq<Entry>)
    ensures Render(es).aborted <==> FirstFailure(es) < |es|
    ensures Render(es).items == Sections(es[..FirstFailure(es)])
    decreases |es|
  {
    if es != [] {
      var init := es[..|es| - 1];
      var last := es[|es| - 1];
      assert init + [last] == es;
      RenderBeforeFailure(init);
      FirstFailureSnoc(init, last);
      var f := FirstFailure(init);
      if f < |init| {
        assert es[..f] == init[..f];
      } else {
        assert init[..f] == init;
        if last.fetch.Failed? {
          assert es[..|init|] == init;
        } else {
          assert es[..|es|] == es;
          SectionsSnoc(init, last);
        }
      }
    }
  }

  /** The loop stops with an exception exactly when some project's fetch failed. */
  lemma RenderAbortsIffFetchFails(es: seq<Entry>)
    ensures Render(es).aborted <==> exists i :: 0 <= i < |es| && es[i].fetch.Failed?
  {
    RenderBeforeFailure(es);
  }

  // ---------------------------------------------------------------------------
  // Headings and blocks

  function HeadingsIn(items: seq<Item>): seq<Item>
    decreases |items|
  {
    if items == [] then []
    else (if items[0].Heading? then [items[0]] else []) + HeadingsIn(items[1..])
  }

  function DefinitionsIn(items: seq<Item>): seq<Definition>
    decreases |items|
  {
    if items == [] then []
    else (if items[0].Block? then [items[0].def] else []) + DefinitionsIn(items[1..])
  }

  /** One heading for each project whose function list was fetched and non-empty. */
  function ShownHeadings(es: seq<Entry>): seq<Item>
    decreases |es|
  {
    if es == [] then []
    else
      var e := es[0];
      (if e.fetch.Ok? && e.fetch.functions != [] then [HeadingFor(e.project.id)] else [])
      + ShownHeadings(es[1..])
  }

  /** The definitions of every fetched UDF, project after project, each list in its own order. */
  function AllDefinitions(es: seq<Entry>): seq<Definition>
    decreases |es|
  {
    if es == [] then []
    else
      var e := es[0];
      (match e.fetch
        case Failed => []
        case Ok(ms) => DefinitionsOf(e.project.id, ms))
      + AllDefinitions(es[1..])
  }

  lemma {:induction false} HeadingsInAppend(a: seq<Item>, b: seq<Item>)
    ensures HeadingsIn(a + b) == HeadingsIn(a) + HeadingsIn(b)
    decreases |a|
  {
    if a == [] {
      assert a + b == b;
    } else {
      assert (a + b)[0] == a[0];
      assert (a + b)[1..] == a[1..] + b;
      HeadingsInAppend(a[1..], b);
    }
  }

  lemma {:induction false} DefinitionsInAppend(a: seq<Item>, b: seq<Item>)
    ensures DefinitionsIn(a + b) == DefinitionsIn(a) + DefinitionsIn(b)
    decreases |a|
  {
    if a == [] {
      assert a + b == b;
    } else {
      assert (a + b)[0] == a[0];
      assert (a + b)[1..] == a[1..] + b;
      DefinitionsInAppend(a[1..], b);
    }
  }

  lemma {:induction false} BlocksContents(projectId: nat, ms: seq<Udf>)
    ensures HeadingsIn(BlocksOf(projectId, ms)) == []
    ensures DefinitionsIn(BlocksOf(projectId, ms)) == DefinitionsOf(projectId, ms)
    decreases |ms|
  {
    if ms != [] {
      var init := ms[..|ms| - 1];
      var b := [Block(DefinitionOf(projectId, ms[|ms| - 1]))];
      BlocksContents(projectId, init);
      HeadingsInAppend(BlocksOf(projectId, init), b);
      DefinitionsInAppend(BlocksOf(projectId, init), b);
      assert b[1..] == [];
    }
  }

  lemma EntrySectionContents(e: Entry)
    ensures HeadingsIn(EntrySection(e))
            == if e.fetch.Ok? && e.fetch.functions != [] then [HeadingFor(e.project.id)] else []
    ensures DefinitionsIn(EntrySection(e))
            == match e.fetch
               case Failed => []
               case Ok(ms) => DefinitionsOf(e.project.id, ms)
  {
    match e.fetch
    case Failed =>
    case Ok(ms) =>
      BlocksContents(e.project.id, ms);
      if ms != [] {
        var h := [HeadingFor(e.project.id)];
        var bs := BlocksOf(e.project.id, ms);
        HeadingsInAppend(h, bs);
        DefinitionsInAppend(h, bs);
        assert h[1..] == [];
      }
  }

  lemma {:induction false} SectionsContents(es: seq<Entry>)
    ensures HeadingsIn(Sections(es)) == ShownHeadings(es)
    ensures DefinitionsIn(Sections(es)) == AllDefinitions(es)
    decreases |es|
  {
    if es != [] {
      SectionsCons(es);
      SectionsContents(es[1..]);
      EntrySectionContents(es[0]);
      HeadingsInAppend(EntrySection(es[0]), Sections(es[1..]));
      DefinitionsInAppend(EntrySection(es[0]), Sections(es[1..]));
    }
  }

  /**
   * The headings appended are one per project before the first failed fetch
   * whose list is non-empty (an empty list adds none), and the blocks are one
   * per UDF of those projects, in API order.
   */
  lemma RenderContents(es: seq<Entry>)
    ensures HeadingsIn(Render(es).items) == ShownHeadings(es[..FirstFailure(es)])
    ensures DefinitionsIn(Render(es).items) == AllDefinitions(es[..FirstFailure(es)])
  {
    RenderBeforeFailure(es);
    SectionsContents(es[..FirstFailure(es)]);
  }

  // ---------------------------------------------------------------------------
  // No empty project section

  /** Every heading is immediately followed by a definition block. */
  predicate HeadingsFollowed(items: seq<Item>)
  {
    forall k :: 0 <= k < |items| && items[k].Heading? ==> k + 1 < |items| && items[k + 1].Block?
  }

  lemma HeadingsFollowedAppend(a: seq<Item>, b: seq<Item>)
    requires HeadingsFollowed(a) && HeadingsFollowed(b)
    ensures HeadingsFollowed(a + b)
  {
    forall k | 0 <= k < |a + b| && (a + b)[k].Heading?
      ensures k + 1 < |a + b| && (a + b)[k + 1].Block?
    {
      if k < |a| {
        assert a[k].Heading?;
      } else {
        assert b[k - |a|].Heading?;
      }
    }
  }

  lemma {:induction false} BlocksAreBlocks(projectId: nat, ms: seq<Udf>)
    ensures |BlocksOf(projectId, ms)| == |ms|
    ensures forall k :: 0 <= k < |ms| ==> BlocksOf(projectId, ms)[k].Block?
    decreases |ms|
  {
    if ms != [] {
      BlocksAreBlocks(projectId, ms[..|ms| - 1]);
    }
  }

  lemma EntrySectionFollowed(e: Entry)
    ensures HeadingsFollowed(EntrySection(e))
  {
    if e.fetch.Ok? && e.fetch.functions != [] {
      var bs := BlocksOf(e.project.id, e.fetch.functions);
      BlocksAreBlocks(e.project.id, e.fetch.functions);
      var section := [HeadingFor(e.project.id)] + bs;
      assert forall k :: 1 <= k < |section| ==> section[k] == bs[k - 1];
    }
  }

  lemma {:induction false} SectionsHeadingsFollowed(es: seq<Entry>)
    ensures HeadingsFollowed(Sections(es))
    decreases |es|
  {
    if es != [] {
      SectionsCons(es);
      SectionsHeadingsFollowed(es[1..]);
      EntrySectionFollowed(es[0]);
      HeadingsFollowedAppend(EntrySection(es[0]), Sections(es[1..]));
    }
  }

  /** A project heading never stands without at least one UDF block after it. */
  lemma RenderHeadingsFollowed(es: seq<Entry>)
    ensures HeadingsFollowed(Render(es).items)
  {
    RenderBeforeFailure(es);
    SectionsHeadingsFollowed(es[..FirstFailure(es)]);
  }

  // ---------------------------------------------------------------------------
  // A failed fetch: as written, and as the `skip` flag intends

  /**
   * As written, one failed fetch hides every later project: a project whose
   * fetch failed, followed by a project with one UDF, renders nothing and
   * throws, where skipping the failed project would have rendered the second.
   */
  lemma FailedFetchHidesLaterProjects(p: Project, q: Project, m: Udf)
    ensures Render([Entry(p, Failed), Entry(q, Ok([m]))]) == Rendered([], true)
    ensures RenderSkipping([Entry(p, Failed), Entry(q, Ok([m]))])
            == [HeadingFor(q.id), Block(DefinitionOf(q.id, m))]
  {
    var es := [Entry(p, Failed), Entry(q, Ok([m]))];
    var first := es[..1];
    assert first == [Entry(p, Failed)];
    assert first[..0] == [];
    assert Render(first) == Rendered([], true);
    assert Render(es) == Render(first);
    assert BlocksOf(q.id, [m]) == [Block(DefinitionOf(q.id, m))];
    assert RenderSkipping(first) == [];
    assert RenderSkipping(es) == RenderSkipping(first) + SectionOf(q.id, [m]);
  }

  /** The loop as the `skip` flag intends it: a failed fetch skips its project only. */
  function RenderSkipping(es: seq<Entry>): (r: seq<Item>)
    ensures Render(es).items <= r
    ensures !Render(es).aborted ==> r == Render(es).items
    decreases |es|
  {
    if es == [] then []
    else RenderSkipping(es[..|es| - 1]) + EntrySection(es[|es| - 1])
  }

  lemma {:induction false} RenderSkippingIsSections(es: seq<Entry>)
    ensures RenderSkipping(es) == Sections(es)
    decreases |es|
  {
    if es != [] {
      var init := es[..|es| - 1];
      var last := es[|es| - 1];
      assert init + [last] == es;
      assert RenderSkipping(es) == RenderSkipping(init) + EntrySection(last);
      RenderSkippingIsSections(init);
      SectionsSnoc(init, last);
    }
  }

  /**
   * With skipping, the output is every entry's section in order: one heading
   * per project whose fetch succeeded with a non-empty list, one block per UDF
   * of those projects, and every heading followed by a block.
   */
  lemma RenderSkippingContents(es: seq<Entry>)
    ensures HeadingsIn(RenderSkipping(es)) == ShownHeadings(es)
    ensures DefinitionsIn(RenderSkipping(es)) == AllDefinitions(es)
    ensures HeadingsFollowed(RenderSkipping(es))
  {
    RenderSkippingIsSections(es);
    SectionsContents(es);
    SectionsHeadingsFollowed(es);
  }

  // ---------------------------------------------------------------------------
  // Anchors

  /**
   * Project headings have distinct ids for distinct projects, and no heading
   * id is ever the anchor id of a UDF term.
   */
  lemma HeadingIdsDistinct(p: nat, q: nat, n: string)
    ensures HeadingFor(p).id == HeadingFor(q).id <==> p == q
    ensures HeadingFor(p).id != AnchorId(q, n)
  {
    var prefix := "PROJECT_";
    if HeadingFor(p).id == HeadingFor(q).id {
      assert Decimal(p) == HeadingFor(p).id[|prefix|..] == HeadingFor(q).id[|prefix|..] == Decimal(q);
      DecimalInjective(p, q);
    }
    assert HeadingFor(p).id[7] == '_';
    assert AnchorId(q, n)[7] == ':';
  }
}
