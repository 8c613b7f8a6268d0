/**
 * The names announced over mDNS (lib/config.py:146-155): a CNAME is the IDNA form of each
 * non-empty dot-separated label, joined by dots; its record data is the same labels in the
 * wire format of section 3.1 of RFC 1035, each prefixed by its length, ended by a zero byte.
 * `encodings.idna.ToASCII` is a parameter: it either gives the ASCII form of a label or raises.
 */
module Dns {
  import opened Wrappers
  import opened Strings

  /** Why an encoding raises: `ToASCII` refused a label, or `chr` a length above 255. */
  datatype Refusal = NotAscii(part: string) | LabelTooLong(part: string)

  /** `ToASCII(label)`, failing as it does. */
  function Ascii(part: string, toAscii: string -> Option<string>): (r: Result<string, Refusal>)
    ensures r.Success? <==> toAscii(part).Some?
    ensures r.Success? ==> r.value == toAscii(part).value
  {
    match toAscii(part)
    case None => Failure(NotAscii(part))
    case Some(a) => Success(a)
  }

  /** `p for p in name.split('.') if p`. */
  function Labels(name: string): (r: seq<string>)
    ensures forall k :: 0 <= k < |r| ==> r[k] != [] && '.' !in r[k]
  {
    var r := NonEmpty(Split(name, '.'));
    SplitPiecesClean(name, '.');
    NonEmptyWithin(Split(name, '.'), '.');
    r
  }

  /** The ASCII form of every label, in order; the first that is refused raises. */
  function AsciiAll(labels: seq<string>, toAscii: string -> Option<string>): (r: Result<seq<string>, Refusal>)
    ensures r.Success? <==> forall k :: 0 <= k < |labels| ==> toAscii(labels[k]).Some?
    ensures r.Success? ==> |r.value| == |labels| && forall k :: 0 <= k < |labels| ==> r.value[k] == toAscii(labels[k]).value
  {
    if labels == [] then Success([])
    else
      var a :- Ascii(labels[0], toAscii);
      var rest :- AsciiAll(labels[1..], toAscii);
      Success([a] + rest)
  }

  /** `encode_cname(name)`. */
  function EncodeCname(name: string, toAscii: string -> Option<string>): Result<string, Refusal> {
    var ascii :- AsciiAll(Labels(name), toAscii);
    Success(Join(ascii, '.'))
  }

  /** The record data of `labels`: each is converted, then prefixed by `chr` of its length. */
  function Rdata(labels: seq<string>, toAscii: string -> Option<string>): Result<string, Refusal> {
    if labels == [] then Success(['\0'])
    else
      var a :- Ascii(labels[0], toAscii);
      if |a| > 255 then Failure(LabelTooLong(a))
      else
        var rest :- Rdata(labels[1..], toAscii);
        Success([|a| as char] + a + rest)
  }

  /** `encode_rdata(name)`. */
  function EncodeRdata(name: string, toAscii: string -> Option<string>): Result<string, Refusal> {
    Rdata(Labels(name), toAscii)
  }

  /** Reading record data back: length-prefixed labels up to a zero byte that ends the data. */
  function Decode(data: string): Option<seq<string>>
    decreases |data|
  {
    if data == [] then None
    else
      var n := data[0] as int;
      if n == 0 then (if |data| == 1 then Some([]) else None)
      else if |data| < 1 + n then None
      else
        match Decode(data[1 + n..])
        case None => None
        case Some(rest) => Some([data[1..1 + n]] + rest)
  }

  /** The pieces of a split hold no separator. */
  lemma {:induction false} SplitPiecesClean(s: string, c: char)
    ensures forall k :: 0 <= k < |Split(s, c)| ==> c !in Split(s, c)[k]
  {
    SplitOnClean(s, {c});
  }

  lemma {:induction false} SplitOnClean(s: string, seps: set<char>)
    ensures forall k :: 0 <= k < |SplitOn(s, seps)| ==> forall x :: x in seps ==> x !in SplitOn(s, seps)[k]
    decreases |s|
  {
    if s != [] {
      SplitOnClean(s[1..], seps);
    }
  }

  /** Dropping the empty pieces keeps the pieces free of `c`. */
  lemma {:induction false} NonEmptyWithin(pieces: seq<string>, c: char)
    requires forall k :: 0 <= k < |pieces| ==> c !in pieces[k]
    ensures forall k :: 0 <= k < |NonEmpty(pieces)| ==> c !in NonEmpty(pieces)[k]
    decreases |pieces|
  {
    if pieces != [] {
      NonEmptyWithin(pieces[1..], c);
    }
  }

  /**
   * The record data of labels whose ASCII forms are not empty reads back as those forms;
   * it exists exactly when every label converts and none is longer than 255.
   */
  lemma {:induction false} RdataDecodes(labels: seq<string>, toAscii: string -> Option<string>)
    requires forall k :: 0 <= k < |labels| && toAscii(labels[k]).Some? ==> toAscii(labels[k]).value != []
    ensures Rdata(labels, toAscii).Success? <==>
            AsciiAll(labels, toAscii).Success? && forall k :: 0 <= k < |labels| ==> |toAscii(labels[k]).value| <= 255
    ensures Rdata(labels, toAscii).Success? ==> Decode(Rdata(labels, toAscii).value) == Some(AsciiAll(labels, toAscii).value)
    decreases |labels|
  {
    if labels != [] {
      var rest := labels[1..];
      assert forall k :: 0 <= k < |rest| ==> rest[k] == labels[k + 1];
      RdataDecodes(rest, toAscii);
      var a := toAscii(labels[0]);
      if a.Some? && |a.value| <= 255 && Rdata(rest, toAscii).Success? {
        var data := Rdata(labels, toAscii).value;
        var tail := Rdata(rest, toAscii).value;
        var n := |a.value|;
        assert data == [n as char] + a.value + tail;
        assert data[0] as int == n;
        assert data[1..1 + n] == a.value;
        assert data[1 + n..] == tail;
      }
    }
  }

  /**
   * The CNAME and its record data name the same labels: whenever the record data exists,
   * the CNAME does, and the labels the data reads back as, joined by dots, are the CNAME.
   */
  lemma RdataMatchesCname(name: string, toAscii: string -> Option<string>)
    requires forall part :: toAscii(part).Some? ==> toAscii(part).value != []
    ensures EncodeCname(name, toAscii).Failure? ==> EncodeRdata(name, toAscii).Failure?
    ensures EncodeRdata(name, toAscii).Success? ==>
              EncodeCname(name, toAscii).Success? &&
              Decode(EncodeRdata(name, toAscii).value).Some? &&
              Join(Decode(EncodeRdata(name, toAscii).value).value, '.') == EncodeCname(name, toAscii).value
  {
    RdataDecodes(Labels(name), toAscii);
  }

  lemma LabelsOfDotted()
    ensures Labels("a.b") == ["a", "b"]
  {
    SplitJoin(["a", "b"], '.');
    assert Join(["a", "b"], '.') == "a.b";
  }

  lemma LabelsOfEmptyParts()
    ensures Labels("a..b.") == ["a", "b"]
  {
    SplitJoin(["a", "", "b", ""], '.');
    assert Join(["a", "", "b", ""], '.') == "a..b.";
    assert NonEmpty(["b", ""]) == ["b"];
  }

  /** Each label is prefixed by its length and a zero byte ends the data: `a.b` becomes 1 a 1 b 0. */
  lemma RdataExample(toAscii: string -> Option<string>)
    requires toAscii("a") == Some("a") && toAscii("b") == Some("b")
    ensures EncodeRdata("a.b", toAscii) == Success(['\U{0001}', 'a', '\U{0001}', 'b', '\0'])
  {
    LabelsOfDotted();
    assert Ascii("b", toAscii) == Success("b") && Ascii("a", toAscii) == Success("a");
    assert ["a", "b"][1..] == ["b"];
    assert Rdata(["b"], toAscii) == Success([1 as char] + "b" + ['\0']);
    assert Rdata(["a", "b"], toAscii) == Success([1 as char] + "a" + ([1 as char] + "b" + ['\0']));
    assert [1 as char] + "a" + ([1 as char] + "b" + ['\0']) == ['\U{0001}', 'a', '\U{0001}', 'b', '\0'];
  }

  /** Empty labels are dropped from the CNAME: `a..b.` becomes `a.b`. */
  lemma CnameExample(toAscii: string -> Option<string>)
    requires toAscii("a") == Some("a") && toAscii("b") == Some("b")
    ensures EncodeCname("a..b.", toAscii) == Success("a.b")
  {
    LabelsOfEmptyParts();
    assert ["a", "b"][1..] == ["b"];
    assert AsciiAll(["a", "b"], toAscii) == Success(["a", "b"]);
    assert Join(["a", "b"], '.') == "a.b";
  }
}
