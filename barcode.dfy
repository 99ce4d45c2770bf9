/**
  The checks the barcode generator makes before it hands the data to the
  barcode library: the type name is normalised and looked up, then the
  data is validated against the type.
*/
module Barcode {
  import opened Ascii

  /** The keys of `supported_formats`. */
  const SupportedTypes: set<string> := {"EAN8", "EAN13", "UPCA", "CODE39", "CODE128", "ISBN", "ISSN"}

  /** `s.replace('-', '')`. */
  function RemoveDashes(s: string): (r: string)
    ensures |r| <= |s|
    ensures forall i :: 0 <= i < |r| ==> r[i] != '-' && r[i] in s
    ensures (forall i :: 0 <= i < |s| ==> s[i] != '-') ==> r == s
  {
    if s == [] then []
    else (if s[0] == '-' then [] else [s[0]]) + RemoveDashes(s[1..])
  }

  lemma {:induction false} RemoveDashesAppend(a: string, b: string)
    ensures RemoveDashes(a + b) == RemoveDashes(a) + RemoveDashes(b)
  {
    if a != [] {
      RemoveDashesAppend(a[1..], b);
      assert (a + b)[0] == a[0] && (a + b)[1..] == a[1..] + b;
      var head := if a[0] == '-' then [] else [a[0]];
      assert RemoveDashes(a + b) == head + RemoveDashes(a[1..] + b);
      assert RemoveDashes(a) == head + RemoveDashes(a[1..]);
    } else {
      assert a + b == b;
    }
  }

  /** Dropping dashes commutes with upper-casing: `-` has no case. */
  lemma {:induction false} UpperRemoveDashes(s: string)
    ensures Upper(RemoveDashes(s)) == RemoveDashes(Upper(s))
  {
    if s != [] {
      UpperRemoveDashes(s[1..]);
      var u := Upper(s);
      assert u[1..] == Upper(s[1..]);
      assert RemoveDashes(u) == (if u[0] == '-' then [] else [u[0]]) + RemoveDashes(u[1..]);
      if s[0] != '-' {
        var x := RemoveDashes(s[1..]);
        assert ([s[0]] + x)[0] == s[0] && ([s[0]] + x)[1..] == x;
      }
    }
  }

  lemma UpperOfUpper(s: string)
    ensures Upper(Upper(s)) == Upper(s)
  {
  }

  /** `barcode_type.upper().replace('-', '')`. */
  function NormalizeType(t: string): (r: string)
    ensures forall i :: 0 <= i < |r| ==> r[i] != '-' && !IsLower(r[i])
  {
    var u := Upper(t);
    var r := RemoveDashes(u);
    forall i | 0 <= i < |r| ensures !IsLower(r[i]) {
      var k :| 0 <= k < |u| && u[k] == r[i];
    }
    r
  }

  /** Normalising twice is normalising once, and a supported name is its own normal form. */
  lemma NormalizeIdempotent(t: string)
    ensures NormalizeType(NormalizeType(t)) == NormalizeType(t)
  {
    var n := NormalizeType(t);
    UpperRemoveDashes(Upper(t));
    UpperOfUpper(t);
    assert Upper(n) == RemoveDashes(Upper(t));
  }

  lemma UpperEan13()
    ensures Upper("ean-13") == "EAN-13"
  {
    var r := Upper("ean-13");
    assert r[0] == 'E' && r[1] == 'A' && r[2] == 'N' && r[3] == '-' && r[4] == '1' && r[5] == '3';
  }

  /** The dash-free pieces of the example names. */
  lemma DashFreePieces()
    ensures RemoveDashes("EAN") == "EAN" && RemoveDashes("13") == "13" && RemoveDashes("8") == "8"
    ensures RemoveDashes("-") == []
  {
    DashFreeEan();
    DashFreeDigits();
    assert RemoveDashes("-") == [] by {
      assert "-"[1..] == [];
    }
  }

  lemma DashFreeEan()
    ensures RemoveDashes("EAN") == "EAN"
  {
  }

  lemma DashFreeDigits()
    ensures RemoveDashes("13") == "13" && RemoveDashes("8") == "8"
  {
  }

  lemma DashesEanDash()
    ensures RemoveDashes("EAN-") == "EAN"
  {
    assert "EAN-" == "EAN" + "-";
    RemoveDashesAppend("EAN", "-");
    DashFreePieces();
  }

  lemma DashesEan13()
    ensures RemoveDashes("EAN-13") == "EAN13"
  {
    assert "EAN-13" == "EAN-" + "13";
    RemoveDashesAppend("EAN-", "13");
    DashesEanDash();
    DashFreePieces();
  }

  lemma NormalizeExamples()
    ensures NormalizeType("ean-13") == "EAN13"
  {
    UpperEan13();
    DashesEan13();
  }

  /** `_validate_data`. */
  function ValidateData(data: string, barcodeType: string): bool {
    if barcodeType == "EAN8" then IsDigits(data) && |data| == 8
    else if barcodeType == "EAN13" then IsDigits(data) && |data| == 13
    else if barcodeType == "UPCA" then IsDigits(data) && |data| == 12
    else if barcodeType in {"CODE39", "CODE128", "ISBN", "ISSN"} then |data| > 0 && IsPrintableStr(data)
    else true
  }

  /** `_get_requirements`. */
  function Requirements(barcodeType: string): string {
    if barcodeType == "EAN8" then "8 digits (numbers only)"
    else if barcodeType == "EAN13" then "13 digits (numbers only)"
    else if barcodeType == "UPCA" then "12 digits (numbers only)"
    else if barcodeType == "CODE39" then "Uppercase letters, numbers, and special chars (- . $ / + %)"
    else if barcodeType == "CODE128" then "Any ASCII character (128 characters supported)"
    else if barcodeType == "ISBN" then "10 or 13 digit ISBN (with or without hyphens)"
    else if barcodeType == "ISSN" then "8 digits (format: XXXX-XXXX)"
    else "N/A"
  }

  /** The fixed digit count of the numeric types. */
  function DigitCount(barcodeType: string): nat {
    if barcodeType == "EAN8" then 8 else if barcodeType == "EAN13" then 13 else if barcodeType == "UPCA" then 12 else 0
  }

  /**
    The numeric types take exactly their number of digits; the textual
    types take any non-empty printable text, with no check digit or
    hyphen format; every other name passes.
  */
  lemma ValidateDataRules(data: string, barcodeType: string)
    ensures barcodeType in {"EAN8", "EAN13", "UPCA"} ==>
      (ValidateData(data, barcodeType) <==>
        |data| == DigitCount(barcodeType) && forall i :: 0 <= i < |data| ==> IsDigit(data[i]))
    ensures barcodeType in {"CODE39", "CODE128", "ISBN", "ISSN"} ==>
      (ValidateData(data, barcodeType) <==> data != [] && IsPrintableStr(data))
    ensures barcodeType !in SupportedTypes ==> ValidateData(data, barcodeType)
    ensures barcodeType in SupportedTypes ==> !ValidateData("", barcodeType)
  {
  }

  /** Every supported type has its own requirement text; any other name gets `N/A`. */
  lemma RequirementsKnown(barcodeType: string)
    ensures barcodeType in SupportedTypes <==> Requirements(barcodeType) != "N/A"
  {
    if barcodeType in SupportedTypes {
      var t := barcodeType;
      assert t == "EAN8" || t == "EAN13" || t == "UPCA" || t == "CODE39" || t == "CODE128" || t == "ISBN" || t == "ISSN";
      if t == "EAN8" {
        assert Requirements(t) == "8 digits (numbers only)";
      } else if t == "EAN13" {
        assert Requirements(t) == "13 digits (numbers only)";
      } else if t == "UPCA" {
        assert Requirements(t) == "12 digits (numbers only)";
      } else if t == "CODE39" {
        assert Requirements(t) == "Uppercase letters, numbers, and special chars (- . $ / + %)";
      } else if t == "CODE128" {
        assert Requirements(t) == "Any ASCII character (128 characters supported)";
      } else if t == "ISBN" {
        assert Requirements(t) == "10 or 13 digit ISBN (with or without hyphens)";
      } else {
        assert Requirements(t) == "8 digits (format: XXXX-XXXX)";
      }
    } else {
      assert Requirements(barcodeType) == "N/A";
    }
  }

  /** How `generate_barcode` ends before the library draws anything. */
  datatype Checked = UnsupportedType(given: string) | InvalidData(requirements: string) | Accepted(barcodeType: string)

  /** The checks of `generate_barcode`: the type first, then the data. */
  function CheckRequest(data: string, barcodeType: string): (r: Checked)
    ensures r.UnsupportedType? <==> NormalizeType(barcodeType) !in SupportedTypes
    ensures r.UnsupportedType? ==> r.given == barcodeType
    ensures r.InvalidData? <==>
      NormalizeType(barcodeType) in SupportedTypes && !ValidateData(data, NormalizeType(barcodeType))
    ensures r.InvalidData? ==> r.requirements == Requirements(NormalizeType(barcodeType)) && r.requirements != "N/A"
    ensures r.Accepted? <==>
      NormalizeType(barcodeType) in SupportedTypes && ValidateData(data, NormalizeType(barcodeType))
    ensures r.Accepted? ==> r.barcodeType == NormalizeType(barcodeType)
  {
    var t := NormalizeType(barcodeType);
    if t !in SupportedTypes then UnsupportedType(barcodeType)
    else if !ValidateData(data, t) then RequirementsKnown(t); InvalidData(Requirements(t))
    else Accepted(t)
  }

  /** Written in any case and with dashes, the normalised type gets the same answer. */
  lemma CheckRequestNormalized(data: string, barcodeType: string)
    ensures CheckRequest(data, NormalizeType(barcodeType)).Accepted? <==> CheckRequest(data, barcodeType).Accepted?
  {
    NormalizeIdempotent(barcodeType);
  }

  lemma UpperEan8()
    ensures Upper("ean-8") == "EAN-8"
  {
    var r := Upper("ean-8");
    assert r[0] == 'E' && r[1] == 'A' && r[2] == 'N' && r[3] == '-' && r[4] == '8';
  }

  lemma DashesEan8()
    ensures RemoveDashes("EAN-8") == "EAN8"
  {
    assert "EAN-8" == "EAN-" + "8";
    RemoveDashesAppend("EAN-", "8");
    DashesEanDash();
    DashFreePieces();
  }

  lemma NormalizeEan8()
    ensures NormalizeType("ean-8") == "EAN8"
  {
    UpperEan8();
    DashesEan8();
  }

  lemma ValidEan8Data()
    ensures ValidateData("12345670", "EAN8")
  {
    assert IsDigits("12345670");
  }

  lemma CheckEan8Example()
    ensures CheckRequest("12345670", "ean-8") == Accepted("EAN8")
  {
    NormalizeEan8();
    ValidEan8Data();
  }

  lemma NormalizeCode128()
    ensures NormalizeType("CODE128") == "CODE128"
  {
    var u := Upper("CODE128");
    assert u[0] == 'C' && u[1] == 'O' && u[2] == 'D' && u[3] == 'E' && u[4] == '1' && u[5] == '2' && u[6] == '8';
    assert u == "CODE128";
    assert forall i :: 0 <= i < |u| ==> u[i] != '-';
  }

  lemma CheckEmptyExample()
    ensures CheckRequest("", "CODE128").InvalidData?
  {
    NormalizeCode128();
  }

  lemma CheckUnsupportedExample()
    ensures CheckRequest("1234", "QR") == UnsupportedType("QR")
  {
    assert Upper("QR") == "QR";
  }
}
