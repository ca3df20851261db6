/** The OpenType `name` table as fontTools holds it (a list of name records),
    and `set_font_name` (fonts/mimic.py), which rewrites the text of the
    family, subfamily, full-name and PostScript-name records in place. */
module NameTable {

  type Byte = bv8

  /** Name IDs of the OpenType Naming Table that the rewrite touches. */
  const FamilyID: nat := 1
  const SubfamilyID: nat := 2
  const FullNameID: nat := 4
  const PostScriptNameID: nat := 6

  /** One name record: what it names, for which platform, encoding and
      language, and its text as stored bytes. */
  datatype NameRecord = NameRecord(
    nameID: nat,
    platformID: nat,
    platEncID: nat,
    langID: nat,
    text: seq<Byte>)

  /** What `record.getEncoding()` depends on: the platform, the platform's
      encoding ID and the language. */
  datatype Encoding = Encoding(platformID: nat, platEncID: nat, langID: nat)

  function GetEncoding(r: NameRecord): Encoding
  {
    Encoding(r.platformID, r.platEncID, r.langID)
  }

  /** `s.encode(codec)` with the codec chosen by the encoding key; the codecs
      themselves belong to the font library, so the caller supplies them. */
  type Encoder = (Encoding, string) -> seq<Byte>

  /** The text written to full-name and PostScript-name records. */
  function FullName(family: string, subfamily: string): string
  {
    family + "-" + subfamily
  }

  /** Every field of a record except its text. */
  predicate SameKey(r: NameRecord, s: NameRecord)
  {
    r.nameID == s.nameID && r.platformID == s.platformID &&
    r.platEncID == s.platEncID && r.langID == s.langID
  }

  /** The effect of one loop iteration of `set_font_name` on one record. */
  function Rewrite(r: NameRecord, family: string, subfamily: string, encode: Encoder): NameRecord
  {
    if r.nameID == FamilyID then r.(text := encode(GetEncoding(r), family))
    else if r.nameID == SubfamilyID then r.(text := encode(GetEncoding(r), subfamily))
    else if r.nameID == FullNameID then r.(text := encode(GetEncoding(r), FullName(family, subfamily)))
    else if r.nameID == PostScriptNameID then r.(text := encode(GetEncoding(r), FullName(family, subfamily)))
    else r
  }

  /** The whole record list after `set_font_name`. */
  function Renamed(names: seq<NameRecord>, family: string, subfamily: string, encode: Encoder): seq<NameRecord>
    decreases |names|
  {
    if names == [] then []
    else [Rewrite(names[0], family, subfamily, encode)] + Renamed(names[1..], family, subfamily, encode)
  }

  /** Renamed rewrites record by record: same length, and position k holds
      the rewrite of the record at position k. */
  lemma {:induction false} RenamedAt(names: seq<NameRecord>, family: string, subfamily: string, encode: Encoder)
    ensures |Renamed(names, family, subfamily, encode)| == |names|
    ensures forall k :: 0 <= k < |names| ==>
      Renamed(names, family, subfamily, encode)[k] == Rewrite(names[k], family, subfamily, encode)
    decreases |names|
  {
    if names != [] {
      RenamedAt(names[1..], family, subfamily, encode);
    }
  }

  /** Every family record (name ID 1) holds the new family, encoded for that record. */
  lemma {:induction false} RenamedFamily(names: seq<NameRecord>, family: string, subfamily: string, encode: Encoder)
    ensures var r := Renamed(names, family, subfamily, encode);
      forall k :: 0 <= k < |names| && names[k].nameID == FamilyID ==>
        k < |r| && r[k].text == encode(GetEncoding(names[k]), family)
  {
    RenamedAt(names, family, subfamily, encode);
  }

  /** Every subfamily record (name ID 2) holds the new subfamily, encoded for that record. */
  lemma {:induction false} RenamedSubfamily(names: seq<NameRecord>, family: string, subfamily: string, encode: Encoder)
    ensures var r := Renamed(names, family, subfamily, encode);
      forall k :: 0 <= k < |names| && names[k].nameID == SubfamilyID ==>
        k < |r| && r[k].text == encode(GetEncoding(names[k]), subfamily)
  {
    RenamedAt(names, family, subfamily, encode);
  }

  /** Every full-name record (name ID 4) and every PostScript-name record
      (name ID 6) holds "family-subfamily", encoded for that record. */
  lemma {:induction false} RenamedFullAndPostScript(names: seq<NameRecord>, family: string, subfamily: string, encode: Encoder)
    ensures var r := Renamed(names, family, subfamily, encode);
      forall k :: 0 <= k < |names| && (names[k].nameID == FullNameID || names[k].nameID == PostScriptNameID) ==>
        k < |r| && r[k].text == encode(GetEncoding(names[k]), family + "-" + subfamily)
  {
    RenamedAt(names, family, subfamily, encode);
  }

  /** A full-name record and a PostScript-name record with the same
      encoding end up with identical text. */
  lemma FullNameMatchesPostScriptName(names: seq<NameRecord>, family: string, subfamily: string, encode: Encoder, i: nat, j: nat)
    requires i < |names| && j < |names|
    requires names[i].nameID == FullNameID && names[j].nameID == PostScriptNameID
    requires GetEncoding(names[i]) == GetEncoding(names[j])
    ensures var r := Renamed(names, family, subfamily, encode);
      i < |r| && j < |r| && r[i].text == r[j].text
  {
    RenamedAt(names, family, subfamily, encode);
  }

  /** Nothing else moves: the count and order of records, every record's
      name ID, platform, encoding and language, and the whole of every
      record whose name ID is not 1, 2, 4 or 6. */
  lemma {:induction false} RenamedKeepsTheRest(names: seq<NameRecord>, family: string, subfamily: string, encode: Encoder)
    ensures var r := Renamed(names, family, subfamily, encode);
      |r| == |names| &&
      (forall k :: 0 <= k < |names| ==> SameKey(r[k], names[k])) &&
      (forall k :: 0 <= k < |names| && names[k].nameID !in {FamilyID, SubfamilyID, FullNameID, PostScriptNameID} ==>
        r[k] == names[k])
  {
    RenamedAt(names, family, subfamily, encode);
  }

  /** Renaming twice with the same names is renaming once: the new text
      never depends on the old text. */
  lemma {:induction false} RenamedIdempotent(names: seq<NameRecord>, family: string, subfamily: string, encode: Encoder)
    ensures Renamed(Renamed(names, family, subfamily, encode), family, subfamily, encode)
         == Renamed(names, family, subfamily, encode)
    decreases |names|
  {
    if names != [] {
      RenamedIdempotent(names[1..], family, subfamily, encode);
      var r := Renamed(names, family, subfamily, encode);
      assert r[1..] == Renamed(names[1..], family, subfamily, encode);
    }
  }

  /** `set_font_name(font, new_family, new_subfamily)` on the font's name
      records: one pass over the list, overwriting each record's text by
      its name ID. */
  method SetFontName(names: array<NameRecord>, newFamily: string, newSubfamily: string, encode: Encoder)
    modifies names
    ensures names[..] == Renamed(old(names[..]), newFamily, newSubfamily, encode)
  {
    var i := 0;
    while i < names.Length
      invariant 0 <= i <= names.Length
      invariant forall k :: 0 <= k < i ==> names[k] == Rewrite(old(names[k]), newFamily, newSubfamily, encode)
      invariant forall k :: i <= k < names.Length ==> names[k] == old(names[k])
    {
      var record := names[i];
      if record.nameID == FamilyID {
        names[i] := record.(text := encode(GetEncoding(record), newFamily));
      } else if record.nameID == SubfamilyID {
        names[i] := record.(text := encode(GetEncoding(record), newSubfamily));
      } else if record.nameID == FullNameID {
        var fullName := newFamily + "-" + newSubfamily;
        names[i] := record.(text := encode(GetEncoding(record), fullName));
      } else if record.nameID == PostScriptNameID {
        var psName := newFamily + "-" + newSubfamily;
        names[i] := record.(text := encode(GetEncoding(record), psName));
      }
      i := i + 1;
    }
    RenamedAt(old(names[..]), newFamily, newSubfamily, encode);
  }
}
