/** Named styles of the spreadsheet: the style table built from the document's style
    definitions, lookups by name, and the box alignment a cell style asks for. */
module Styles {
  import opened Base

  /** A style's properties, keyed by attribute local name (`column-width`, `text-align`,
      `font-size`, ...). */
  type Style = map<string, string>

  /** One child element of a style definition: its tag and its attributes, keyed by
      local name. */
  datatype PropertyGroup = PropertyGroup(tag: string, attributes: map<string, string>)

  /** A `style:style` element: its name and its child property groups, in document order. */
  datatype StyleDef = StyleDef(name: string, groups: seq<PropertyGroup>)

  /** A style whose first group holds column or row geometry is read from that group
      alone; a cell style is read from all of its groups (cell, paragraph and text
      properties). */
  function SelectedGroups(d: StyleDef): seq<PropertyGroup>
  {
    if d.groups == [] then []
    else if IsGeometryGroup(d.groups[0]) then d.groups[..1]
    else d.groups
  }

  /** Column and row styles keep their geometry in a single properties element. */
  predicate IsGeometryGroup(g: PropertyGroup)
  {
    g.tag == "style:table-column-properties" || g.tag == "style:table-row-properties"
  }

  /** The attributes of the groups merged in order, a later group overriding an earlier
      one (dict.update). */
  function MergeGroups(gs: seq<PropertyGroup>): Style
  {
    if gs == [] then map[] else MergeGroups(gs[..|gs| - 1]) + gs[|gs| - 1].attributes
  }

  /** The style table: each definition in document order sets its name to its merged
      properties, so a later definition of a name replaces an earlier one. */
  function StyleTable(defs: seq<StyleDef>): map<string, Style>
  {
    if defs == [] then map[]
    else
      var d := defs[|defs| - 1];
      StyleTable(defs[..|defs| - 1])[d.name := MergeGroups(SelectedGroups(d))]
  }

  /** The loop over the document's styles that fills the style table. */
  method BuildStyles(defs: seq<StyleDef>) returns (styles: map<string, Style>)
    ensures styles == StyleTable(defs)
  {
    styles := map[];
    for i := 0 to |defs|
      invariant styles == StyleTable(defs[..i])
    {
      var d := defs[i];
      // the dictionary stored under the style's name, filled group by group unless the
      // definition has no child element
      var props: Style := map[];
      if d.groups != [] {
        var children := SelectedGroups(d);
        for j := 0 to |children|
          invariant props == MergeGroups(children[..j])
        {
          MergeGroupsStep(children, j);
          props := props + children[j].attributes;
        }
        assert children[..|children|] == children;
      }
      styles := styles[d.name := props];
      StyleTableStep(defs, i);
    }
    assert defs[..|defs|] == defs;
  }

  lemma StyleTableStep(defs: seq<StyleDef>, i: nat)
    requires i < |defs|
    ensures StyleTable(defs[..i + 1]) == StyleTable(defs[..i])[defs[i].name := MergeGroups(SelectedGroups(defs[i]))]
  {
    assert defs[..i + 1][..i] == defs[..i];
  }

  lemma MergeGroupsStep(gs: seq<PropertyGroup>, j: nat)
    requires j < |gs|
    ensures MergeGroups(gs[..j + 1]) == MergeGroups(gs[..j]) + gs[j].attributes
  {
    assert gs[..j + 1][..j] == gs[..j];
  }

  /** A merged property comes from the last group that sets it, and only groups set
      properties. */
  lemma {:induction false} MergeGroupsLookup(gs: seq<PropertyGroup>, key: string)
    ensures key in MergeGroups(gs) <==> exists i :: 0 <= i < |gs| && key in gs[i].attributes
    ensures key in MergeGroups(gs) ==>
      exists i :: 0 <= i < |gs| && key in gs[i].attributes && MergeGroups(gs)[key] == gs[i].attributes[key]
        && forall j :: i < j < |gs| ==> key !in gs[j].attributes
  {
    if gs != [] {
      var init := gs[..|gs| - 1];
      MergeGroupsLookup(init, key);
      var last := |gs| - 1;
      if key in gs[last].attributes {
        assert MergeGroups(gs)[key] == gs[last].attributes[key];
      } else if key in MergeGroups(init) {
        var i :| 0 <= i < |init| && key in init[i].attributes && MergeGroups(init)[key] == init[i].attributes[key]
          && forall j :: i < j < |init| ==> key !in init[j].attributes;
        assert gs[i] == init[i];
        assert forall j :: i < j < |gs| ==> key !in gs[j].attributes by {
          forall j | i < j < |gs| ensures key !in gs[j].attributes {
            if j < last { assert gs[j] == init[j]; }
          }
        }
      } else {
        forall i | 0 <= i < |gs| ensures key !in gs[i].attributes {
          if i < last { assert gs[i] == init[i]; }
        }
      }
      if exists i :: 0 <= i < |gs| && key in gs[i].attributes {
        var i :| 0 <= i < |gs| && key in gs[i].attributes;
        if i < last { assert init[i] == gs[i]; }
      }
    }
  }

  /** A name is in the style table exactly when some definition carries it. */
  lemma {:induction false} StyleTableHas(defs: seq<StyleDef>, name: string)
    ensures name in StyleTable(defs) <==> exists i :: 0 <= i < |defs| && defs[i].name == name
  {
    if defs != [] {
      var init := defs[..|defs| - 1];
      StyleTableHas(init, name);
      if exists i :: 0 <= i < |defs| && defs[i].name == name {
        var i :| 0 <= i < |defs| && defs[i].name == name;
        if i < |defs| - 1 { assert init[i] == defs[i]; }
      }
      if exists i :: 0 <= i < |init| && init[i].name == name {
        var i :| 0 <= i < |init| && init[i].name == name;
        assert defs[i] == init[i];
      }
    }
  }

  /** A name maps to the merged properties of the last definition that carries it. */
  lemma {:induction false} StyleTableLast(defs: seq<StyleDef>, i: nat)
    requires i < |defs|
    requires forall j :: i < j < |defs| ==> defs[j].name != defs[i].name
    ensures defs[i].name in StyleTable(defs)
    ensures StyleTable(defs)[defs[i].name] == MergeGroups(SelectedGroups(defs[i]))
  {
    var last := |defs| - 1;
    if i < last {
      var init := defs[..last];
      assert init[i] == defs[i];
      assert forall j :: i < j < |init| ==> init[j].name != init[i].name by {
        forall j | i < j < |init| ensures init[j].name != init[i].name {
          assert init[j] == defs[j];
        }
      }
      StyleTableLast(init, i);
    }
  }

  /** get_style: an empty name gives the empty style; any other name must be in the
      table. */
  function GetStyle(name: string, styles: map<string, Style>): (r: Result<Style>)
    ensures name == "" ==> r == Ok(map[])
    ensures name != "" ==> (r.Ok? <==> name in styles)
    ensures name != "" && r.Ok? ==> r.value == styles[name]
    ensures r.Err? ==> r.error == KeyError(name)
  {
    if name == "" then Ok(map[])
    else if name in styles then Ok(styles[name])
    else Err(KeyError(name))
  }

  /** The vertical alignment a style asks for; absent or "automatic" means bottom. */
  function VerticalAlign(style: Style): string
  {
    if "vertical-align" in style && style["vertical-align"] != "automatic" then style["vertical-align"]
    else "bottom"
  }

  /** The spreadsheet's horizontal alignment words in the drawing's vocabulary. */
  function TranslateHorizontal(align: string): string
  {
    if align == "center" then "middle"
    else if align == "end" then "right"
    else if align == "start" then "left"
    else align
  }

  /** The horizontal alignment a style asks for; absent or "automatic" means left. */
  function HorizontalAlign(style: Style): string
  {
    if "text-align" in style && style["text-align"] != "automatic" then TranslateHorizontal(style["text-align"])
    else "left"
  }

  /** The label of a box alignment: "center" for middle on both axes, otherwise the two
      words joined by a hyphen. */
  function AlignmentLabel(vertical: string, horizontal: string): (box: string)
    ensures box == "center" <==> vertical == "middle" && horizontal == "middle"
  {
    if vertical == "middle" && horizontal == "middle" then "center"
    else
      var joined := vertical + "-" + horizontal;
      assert joined[|vertical|] == '-';
      assert '-' !in "center";
      joined
  }

  /** get_box_alignment. */
  function BoxAlignment(style: Style): (box: string)
    ensures box == "center" <==> VerticalAlign(style) == "middle" && HorizontalAlign(style) == "middle"
  {
    AlignmentLabel(VerticalAlign(style), HorizontalAlign(style))
  }

  /** A style without alignment properties is placed at the bottom left; centring on
      both axes is labelled "center". */
  lemma BoxAlignmentDefaults()
    ensures BoxAlignment(map[]) == "bottom-left"
    ensures BoxAlignment(map["vertical-align" := "automatic", "text-align" := "automatic"]) == "bottom-left"
    ensures BoxAlignment(map["vertical-align" := "middle", "text-align" := "center"]) == "center"
    ensures BoxAlignment(map["vertical-align" := "top", "text-align" := "end"]) == "top-right"
  {
  }
}
