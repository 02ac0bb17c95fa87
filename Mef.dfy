/** The names the composition root loads its editor components under: each
    logical component name followed by a fixed culture / public-key suffix.
    Loading the assemblies and composing their catalogs is not modelled. */
module Mef {
  import opened Wrappers

  /** The editor components to load, in load order. */
  const EditorComponents: seq<string> := [
    "Microsoft.VisualStudio.Platform.VSEditor",
    "Microsoft.VisualStudio.Text.Internal",
    "Microsoft.VisualStudio.Text.Logic",
    "Microsoft.VisualStudio.Text.UI",
    "Microsoft.VisualStudio.Text.UI.Wpf",
    "Microsoft.VisualStudio.Editor.Implementation",
    "Microsoft.VisualStudio.Shell.TreeNavigation.HierarchyProvider"
  ]

  /** Appended to every component name to form a full assembly name (the
      version is supplied later, by the host's assembly resolver). */
  const FullNameSuffix: string :=
    ", Culture=neutral, PublicKeyToken=b03f5f7f11d50a3a, processorArchitecture=MSIL"

  function FullName(component: string): string {
    component + FullNameSuffix
  }

  /** The inverse of FullName: the component a full name was formed from, if it
      ends in the suffix. */
  function ComponentOf(name: string): Option<string> {
    if |name| >= |FullNameSuffix| && name[|name| - |FullNameSuffix|..] == FullNameSuffix
    then Some(name[..|name| - |FullNameSuffix|])
    else None
  }

  /** The full names, one per component, in the components' order. */
  function FullNames(components: seq<string>): (names: seq<string>)
    ensures |names| == |components|
    ensures forall i :: 0 <= i < |components| ==> names[i] == FullName(components[i])
  {
    if components == [] then [] else [FullName(components[0])] + FullNames(components[1..])
  }

  /** Removing the suffix gives back the component ... */
  lemma ComponentOfFullName(component: string)
    ensures ComponentOf(FullName(component)) == Some(component)
  {
  }

  /** ... and a name that has a component is that component's full name. */
  lemma FullNameOfComponent(name: string)
    requires ComponentOf(name).Some?
    ensures FullName(ComponentOf(name).value) == name
  {
  }

  /** Two components share a full name only if they are the same component. */
  lemma FullNameInjective(a: string, b: string)
    requires FullName(a) == FullName(b)
    ensures a == b
  {
    ComponentOfFullName(a);
    ComponentOfFullName(b);
  }

  /** The full names determine the component list: different lists never give
      the same names. */
  lemma FullNamesInjective(components1: seq<string>, components2: seq<string>)
    requires FullNames(components1) == FullNames(components2)
    ensures components1 == components2
  {
    forall i | 0 <= i < |components1|
      ensures components1[i] == components2[i]
    {
      FullNameInjective(components1[i], components2[i]);
    }
  }

  /** The components load under seven full names, each ending in the suffix, in
      the order of EditorComponents; none is loaded twice. */
  lemma EditorComponentFullNames()
    ensures var names := FullNames(EditorComponents);
      && |names| == |EditorComponents| == 7
      && (forall i :: 0 <= i < |names| ==> ComponentOf(names[i]) == Some(EditorComponents[i]))
      && (forall i, j :: 0 <= i < j < |names| ==> names[i] != names[j])
  {
    var names := FullNames(EditorComponents);
    forall i | 0 <= i < |names|
      ensures ComponentOf(names[i]) == Some(EditorComponents[i])
    {
      ComponentOfFullName(EditorComponents[i]);
    }
    forall i, j | 0 <= i < j < |names|
      ensures names[i] != names[j]
    {
      ComponentOfFullName(EditorComponents[i]);
      ComponentOfFullName(EditorComponents[j]);
      EditorComponentsDistinct(i, j);
    }
  }

  /** No component is listed twice. */
  lemma EditorComponentsDistinct(i: int, j: int)
    requires 0 <= i < j < |EditorComponents|
    ensures EditorComponents[i] != EditorComponents[j]
  {
  }
}
