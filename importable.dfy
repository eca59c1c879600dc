/** A compiled build-plugin interface (`Importable.cs`): the interface type, the plugin source it
    came from and whether the intermediate script loads that source instead of referencing the
    compiled assembly. Its text form is the key plugins are deduplicated by. */
module Importables {
  import opened Wrappers
  import opened Paths

  /** What the code reads of a .NET `Type`: its name, namespace, full name and the location of
      the assembly it lives in. */
  datatype TypeInfo = TypeInfo(name: string, namespace: Option<string>, fullName: string, assemblyLocation: string)

  /** `Importable(Interface, Source = null, ImportViaSource = false)` */
  datatype Importable = Importable(iface: TypeInfo, source: Option<AbsolutePath>, importViaSource: bool)

  /** The constructor with its defaults. */
  function ImportableOf(iface: TypeInfo): (r: Importable)
    ensures r.iface == iface && r.source == None && !r.importViaSource
  {
    Importable(iface, None, false)
  }

  /** `ToString()`: empty without a source, the source path when imported via source, else the
      location of the interface's assembly. `sep` is the platform's directory separator. */
  function ImportableText(i: Importable, sep: char): string {
    match i.source
    case None => ""
    case Some(src) => if i.importViaSource then ToText(src, sep) else i.iface.assemblyLocation
  }

  /** The three cases of the text form. */
  lemma ImportableTextCases(i: Importable, sep: char)
    ensures i.source.None? ==> ImportableText(i, sep) == ""
    ensures i.source.Some? && i.importViaSource ==> ImportableText(i, sep) == ToText(i.source.value, sep)
    ensures i.source.Some? && !i.importViaSource ==> ImportableText(i, sep) == i.iface.assemblyLocation
  {
  }

  /** Interfaces imported from the same source share one key, whatever the interface; interfaces
      referenced from the same assembly share one key, whatever their source. */
  lemma SameKey(a: Importable, b: Importable, sep: char)
    ensures a.source.Some? && a.importViaSource && b.importViaSource && a.source == b.source
            ==> ImportableText(a, sep) == ImportableText(b, sep)
    ensures a.source.Some? && b.source.Some? && !a.importViaSource && !b.importViaSource
            && a.iface.assemblyLocation == b.iface.assemblyLocation
            ==> ImportableText(a, sep) == ImportableText(b, sep)
  {
  }
}
