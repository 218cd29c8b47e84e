/** The fixed data the converter works from: the Julian Day Number of the
    Mayan creation date and the two ordered name tables (0-indexed). The
    apostrophe-like letter in the names is U+02BC, as in the page's name tables. */
module MayanTables {

  /** JDN of 0.0.0.0.0, 11 August 3114 BCE in the proleptic Gregorian calendar. */
  const MayanEpochJdn: int := 584283

  /** The twenty Tzolkʼin day names, in cycle order. */
  const TzolkinNames: seq<string> := [
    "Imix", "Ikʼ", "Akʼbʼal", "Kʼan", "Chikchan",
    "Kimi", "Manikʼ", "Lamat", "Muluk", "Ok",
    "Chuwen", "Ebʼ", "Bʼen", "Ix", "Men",
    "Kibʼ", "Kabʼan", "Etzʼnabʼ", "Kawak", "Ajaw"
  ]

  /** The eighteen twenty-day Haab months followed by the five-day Wayebʼ. */
  const HaabMonths: seq<string> := [
    "Pop", "Woʼ", "Sip", "Sotzʼ", "Sek", "Xul",
    "Yaxkʼinʼ", "Mol", "Chʼen", "Yax", "Sakʼ", "Keh",
    "Mak", "Kʼankʼin", "Muwan", "Pax", "Kʼayabʼ", "Kumkʼu",
    "Wayebʼ"
  ]

  /** Index of the terminal five-day period in HaabMonths. */
  const WayebIndex: nat := 18

  /** No name occurs twice in the table. */
  ghost predicate Distinct(names: seq<string>) {
    forall i, j :: 0 <= i < |names| && 0 <= j < |names| && names[i] == names[j] ==> i == j
  }

  /** Length, first and last letter: enough to tell the table entries apart. */
  function Signature(name: string): (int, char, char)
    requires |name| >= 1
  {
    (|name|, name[0], name[|name| - 1])
  }

  /** Distinct signatures imply distinct names. */
  lemma DistinctBySignature(names: seq<string>)
    requires forall i :: 0 <= i < |names| ==> |names[i]| >= 1
    requires forall i, j :: 0 <= i < j < |names| ==> Signature(names[i]) != Signature(names[j])
    ensures Distinct(names)
  {
    forall i, j | 0 <= i < |names| && 0 <= j < |names| && names[i] == names[j]
      ensures i == j
    {
      assert Signature(names[i]) == Signature(names[j]);
    }
  }

  lemma TzolkinNamesDistinct()
    ensures |TzolkinNames| == 20
    ensures Distinct(TzolkinNames)
  {
    DistinctBySignature(TzolkinNames);
  }

  lemma HaabMonthsDistinct()
    ensures |HaabMonths| == 19
    ensures HaabMonths[WayebIndex] == "Wayebʼ"
    ensures Distinct(HaabMonths)
  {
    DistinctBySignature(HaabMonths);
  }
}
