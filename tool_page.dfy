/** The tool page: finding a tool of the catalog by the slug in the path, redirecting
    unknown slugs to the catalog root, the page title, and the "Related Tools" sidebar. */
module ToolPage {
  import opened Files

  datatype Category = Pdf | Image | Utility

  /** A catalog entry, reduced to what routing reads (descriptions, FAQs and icons omitted). */
  datatype Tool = Tool(id: string, title: string, category: Category)

  /** What the route renders: the tool's page, or a redirect. */
  datatype Page = ToolView(tool: Tool, title: string, related: seq<Tool>) | Redirect(to: string)

  const MaxRelated: nat := 6
  const TitleSuffix: string := " - FileHelper.xyz | Free Online Tool"

  /** `TOOLS.find(t => t.id === toolId)`: the first entry whose id is the slug. */
  function Find(catalog: seq<Tool>, slug: string): (r: Option<Tool>)
    ensures r.Some? ==> r.value in catalog && r.value.id == slug
    ensures r.None? <==> forall i :: 0 <= i < |catalog| ==> catalog[i].id != slug
  {
    if catalog == [] then None
    else if catalog[0].id == slug then Some(catalog[0])
    else Find(catalog[1..], slug)
  }

  /** `Find` returns the FIRST match: the entry at the first index whose id is the slug. */
  lemma {:induction false} FindIsFirst(catalog: seq<Tool>, slug: string, i: nat)
    requires i < |catalog| && catalog[i].id == slug
    requires forall j :: 0 <= j < i ==> catalog[j].id != slug
    ensures Find(catalog, slug) == Some(catalog[i])
  {
    if i > 0 {
      FindIsFirst(catalog[1..], slug, i - 1);
    }
  }

  /** With distinct ids every entry is found by its own id. */
  lemma FindByOwnId(catalog: seq<Tool>, i: nat)
    requires i < |catalog|
    requires forall a, b :: 0 <= a < b < |catalog| ==> catalog[a].id != catalog[b].id
    ensures Find(catalog, catalog[i].id) == Some(catalog[i])
  {
    FindIsFirst(catalog, catalog[i].id, i);
  }

  /** The document title pushed into the head for a tool. */
  function PageTitle(tool: Tool): (title: string)
    ensures |title| == |tool.title| + |TitleSuffix|
    ensures title[..|tool.title|] == tool.title
    ensures title[|tool.title|..] == TitleSuffix
  {
    tool.title + TitleSuffix
  }

  /** The title names the tool: two tools with the same page title have the same title. */
  lemma PageTitleDeterminesToolTitle(a: Tool, b: Tool)
    requires PageTitle(a) == PageTitle(b)
    ensures a.title == b.title
  {
    assert |a.title| == |PageTitle(a)| - |TitleSuffix|;
    assert a.title == PageTitle(a)[..|a.title|];
  }

  /** Related to `tool`: another id, same category. */
  predicate IsRelated(tool: Tool, t: Tool) {
    t.id != tool.id && t.category == tool.category
  }

  /** `TOOLS.filter(t => t.id !== tool.id && t.category === tool.category)`. */
  function Candidates(catalog: seq<Tool>, tool: Tool): (r: seq<Tool>)
    ensures |r| <= |catalog|
    ensures forall t :: t in r <==> t in catalog && IsRelated(tool, t)
  {
    if catalog == [] then []
    else (if IsRelated(tool, catalog[0]) then [catalog[0]] else []) + Candidates(catalog[1..], tool)
  }

  /** Filtering a concatenation filters each part and keeps them in catalog order. */
  lemma {:induction false} CandidatesAppend(c: seq<Tool>, d: seq<Tool>, tool: Tool)
    ensures Candidates(c + d, tool) == Candidates(c, tool) + Candidates(d, tool)
  {
    if c == [] {
      assert c + d == d;
    } else {
      assert (c + d)[0] == c[0];
      assert (c + d)[1..] == c[1..] + d;
      CandidatesAppend(c[1..], d, tool);
    }
  }

  /** `.slice(0, 6)` of the candidates: the first six related tools in catalog order. */
  function RelatedTools(catalog: seq<Tool>, tool: Tool): (r: seq<Tool>)
    ensures |r| <= MaxRelated
    ensures forall t :: t in r ==> t in catalog && IsRelated(tool, t)
    ensures r <= Candidates(catalog, tool)
    ensures |r| == Min(|Candidates(catalog, tool)|, MaxRelated)
  {
    var c := Candidates(catalog, tool);
    if |c| <= MaxRelated then c else c[..MaxRelated]
  }

  /** The current tool is never listed among its own related tools. */
  lemma RelatedExcludesSelf(catalog: seq<Tool>, tool: Tool)
    ensures tool !in RelatedTools(catalog, tool)
  {
  }

  /** When fewer than six tools qualify, every qualifying catalog entry is listed. */
  lemma RelatedComplete(catalog: seq<Tool>, tool: Tool, t: Tool)
    requires |Candidates(catalog, tool)| <= MaxRelated
    requires t in catalog && IsRelated(tool, t)
    ensures t in RelatedTools(catalog, tool)
  {
  }

  /** The route for a slug: the tool's page when the catalog has it, a redirect to `/`
      otherwise. */
  function Route(catalog: seq<Tool>, slug: string): (p: Page)
    ensures p.Redirect? <==> forall i :: 0 <= i < |catalog| ==> catalog[i].id != slug
    ensures p.Redirect? ==> p.to == "/"
    ensures p.ToolView? ==> Find(catalog, slug) == Some(p.tool)
    ensures p.ToolView? ==> p.tool in catalog && p.tool.id == slug &&
                            p.title == PageTitle(p.tool) &&
                            p.related == RelatedTools(catalog, p.tool)
  {
    match Find(catalog, slug)
    case None => Redirect("/")
    case Some(tool) => ToolView(tool, PageTitle(tool), RelatedTools(catalog, tool))
  }
}
