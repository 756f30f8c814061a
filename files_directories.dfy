/** The five storage subdirectories (FilesDirectoriesEnum).

    Each constant has two spellings: the built-in `name()` of the Java enum,
    which is the upper-case identifier and is what the processing service
    writes under, and `getName()`, the lower-case string the constant was
    built with, which is what the listing page reads. The model keeps both
    and does not reconcile them. */
module FilesDirectories {

  datatype FilesDirectory = ORIGINALS | UPSCALE | REMOVED | CREATED | INPAINT
  {
    /** `getName()`: the lower-case string the constant was declared with. */
    function GetName(): (s: string)
      ensures s != []
      ensures forall i :: 0 <= i < |s| ==> 'a' <= s[i] <= 'z'
    {
      match this
      case ORIGINALS => "originals"
      case UPSCALE => "upscale"
      case REMOVED => "removed"
      case CREATED => "created"
      case INPAINT => "inpaint"
    }

    /** The built-in `name()`: the constant's identifier, which is `getName()`
        in upper case. */
    function Name(): (s: string)
      ensures |s| == |GetName()|
      ensures forall i :: 0 <= i < |s| ==> s[i] as int == GetName()[i] as int - 32
    {
      match this
      case ORIGINALS => "ORIGINALS"
      case UPSCALE => "UPSCALE"
      case REMOVED => "REMOVED"
      case CREATED => "CREATED"
      case INPAINT => "INPAINT"
    }
  }

  /** `values()`: the constants in declaration order. */
  const Values: seq<FilesDirectory> := [ORIGINALS, UPSCALE, REMOVED, CREATED, INPAINT]

  /** `getDirectoriesNames()`: `getName()` of every constant, in declaration order. */
  function GetDirectoriesNames(): (names: seq<string>)
    ensures |names| == |Values|
    ensures forall i :: 0 <= i < |Values| ==> names[i] == Values[i].GetName()
  {
    MapNames(Values)
  }

  function MapNames(ds: seq<FilesDirectory>): (names: seq<string>)
    ensures |names| == |ds|
    ensures forall i :: 0 <= i < |ds| ==> names[i] == ds[i].GetName()
  {
    if ds == [] then [] else [ds[0].GetName()] + MapNames(ds[1..])
  }

  /** Every constant occurs exactly once in `values()`. */
  lemma ValuesComplete(d: FilesDirectory)
    ensures d in Values
    ensures forall i, j :: 0 <= i < j < |Values| ==> Values[i] != Values[j]
  {
  }

  /** The listing page sees exactly these five names, in this order. */
  lemma DirectoriesNamesAre()
    ensures GetDirectoriesNames() == ["originals", "upscale", "removed", "created", "inpaint"]
  {
  }

  /** The five names are pairwise distinct, so `getName()` is one-to-one. */
  lemma DirectoriesNamesDistinct()
    ensures forall i, j :: 0 <= i < j < |GetDirectoriesNames()|
              ==> GetDirectoriesNames()[i] != GetDirectoriesNames()[j]
    ensures forall d: FilesDirectory, e: FilesDirectory :: d.GetName() == e.GetName() ==> d == e
  {
    DirectoriesNamesAre();
  }

  /** `getName()` and `name()` never agree: no constant's identifier is among
      the names the listing page iterates. */
  lemma NameDiffersFromGetName(d: FilesDirectory)
    ensures d.Name() != d.GetName()
    ensures d.Name() !in GetDirectoriesNames()
  {
    DirectoriesNamesAre();
  }
}
