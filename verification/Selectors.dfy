/** `decode_selector`: naming the method a transaction calls, from the first four bytes of its data. */
module Selectors {
  import opened Wrappers
  import opened Text
  import opened Hex
  import opened AbiCodec
  import opened AbiEncoders

  datatype SelectorMatch = Empty | Malformed | Known(canonical: string, selector: Bytes) | Unknown(selector: Bytes)

  /** The first registered signature with this selector. */
  function Lookup(hash: Hash, registry: seq<string>, selector: Bytes, i: nat): SelectorMatch
    requires IsHash(hash)
    decreases |registry| - i
  {
    if i >= |registry| then Unknown(selector)
    else if Selector(hash, registry[i]) == selector then Known(registry[i], selector)
    else Lookup(hash, registry, selector, i + 1)
  }

  /** `decode_selector`. */
  function DecodeSelector(hash: Hash, registry: seq<string>, input: string): SelectorMatch
    requires IsHash(hash)
  {
    var trimmed := Trim(input);
    if trimmed == "" then Empty else
    var stripped := StripPrefix(trimmed, "0x");
    if stripped == "" then Empty
    else if |stripped| < 8 then Malformed
    else
      match FromHex(stripped[..8])
      case None => Malformed
      case Some(selector) => Lookup(hash, registry, selector, 0)
  }

  // ---------- lookups ----------

  lemma {:induction false} LookupFirst(hash: Hash, registry: seq<string>, selector: Bytes, i: nat, k: nat)
    requires IsHash(hash) && i <= k < |registry| && Selector(hash, registry[k]) == selector
    requires forall j :: i <= j < k ==> Selector(hash, registry[j]) != selector
    ensures Lookup(hash, registry, selector, i) == Known(registry[k], selector)
    decreases k - i
  {
    if i < k {
      LookupFirst(hash, registry, selector, i + 1, k);
    }
  }

  lemma {:induction false} LookupNone(hash: Hash, registry: seq<string>, selector: Bytes, i: nat)
    requires IsHash(hash)
    ensures Lookup(hash, registry, selector, i).Unknown?
       <==> forall j :: i <= j < |registry| ==> Selector(hash, registry[j]) != selector
    decreases |registry| - i
  {
    if i < |registry| && Selector(hash, registry[i]) != selector {
      LookupNone(hash, registry, selector, i + 1);
    }
  }

  // ---------- calldata as the wallet shows it ----------

  lemma HeadOfHex(h: string, calldata: Bytes)
    requires FromHex(h) == Some(calldata) && |calldata| >= 4
    ensures FromHex(h[..8]) == Some(calldata[..4])
  {
    var head := h[..8];
    forall i | 0 <= i < 4
      ensures ByteAt(head, i) == calldata[i]
    {
      assert head[2 * i] == h[2 * i] && head[2 * i + 1] == h[2 * i + 1];
    }
    assert FromHex(head).value == calldata[..4];
  }

  /**
   Calldata in hexadecimal, in capitals or not, with or without the prefix and white space around it, is matched by its
   first four bytes.
   */
  lemma DecodeCalldata(hash: Hash, registry: seq<string>, a: string, h: string, calldata: Bytes, b: string)
    requires IsHash(hash) && FromHex(h) == Some(calldata) && |calldata| >= 4 && AllSpace(a) && AllSpace(b)
    ensures DecodeSelector(hash, registry, a + ("0x" + h) + b) == Lookup(hash, registry, calldata[..4], 0)
    ensures DecodeSelector(hash, registry, a + h + b) == Lookup(hash, registry, calldata[..4], 0)
  {
    HeadOfHex(h, calldata);
    assert IsHexDigit(h[0]) && IsHexDigit(h[1]) && IsHexDigit(h[|h| - 1]);
    TrimPadded(a, h, b);
    TrimPadded(a, "0x" + h, b);
    assert StripPrefix(h, "0x") == h && StripPrefix("0x" + h, "0x") == h;
  }

  lemma LookupNames(hash: Hash, registry: seq<string>, selector: Bytes, i: nat)
    requires IsHash(hash)
    ensures var m := Lookup(hash, registry, selector, i); (m.Known? || m.Unknown?) && m.selector == selector
    decreases |registry| - i
  {
    if i < |registry| && Selector(hash, registry[i]) != selector {
      LookupNames(hash, registry, selector, i + 1);
    }
  }

  /** What is left of an input without white space around it and without the prefix. */
  function Digits(input: string): string { StripPrefix(Trim(input), "0x") }

  /** Each answer's inputs: nothing; less than four bytes of digits in front; four bytes, which are the selector. */
  lemma AnswersMean(hash: Hash, registry: seq<string>, input: string)
    requires IsHash(hash)
    ensures var m, h := DecodeSelector(hash, registry, input), Digits(input);
            && (m.Empty? <==> h == "")
            && (m.Malformed? <==> h != "" && (|h| < 8 || !IsHex(h[..8])))
            && (m.Known? || m.Unknown? <==> |h| >= 8 && FromHex(h[..8]).Some?)
            && (m.Known? || m.Unknown? ==> FromHex(h[..8]) == Some(m.selector))
  {
    var h := Digits(input);
    if |h| >= 8 && IsHex(h[..8]) {
      LookupNames(hash, registry, FromHex(h[..8]).value, 0);
    }
  }

  /**
   The GUI can name its own calls: calldata of a registered signature is decoded to that signature if and only if
   no earlier registered signature has the same selector.
   */
  lemma OwnCalldataIsNamed(hash: Hash, registry: seq<string>, k: nat, vs: seq<Value>)
    requires IsHash(hash) && k < |registry|
    ensures var sel := Selector(hash, registry[k]);
            (forall j :: 0 <= j < k ==> registry[j] != registry[k]) ==>
              (DecodeSelector(hash, registry, "0x" + ToHex(sel + Encode(vs))) == Known(registry[k], sel)
               <==> forall j :: 0 <= j < k ==> Selector(hash, registry[j]) != sel)
  {
    var sel := Selector(hash, registry[k]);
    var calldata := sel + Encode(vs);
    FromToHex(calldata);
    DecodeCalldata(hash, registry, "", ToHex(calldata), calldata, "");
    assert "" + ("0x" + ToHex(calldata)) + "" == "0x" + ToHex(calldata);
    assert calldata[..4] == sel;
    if forall j :: 0 <= j < k ==> Selector(hash, registry[j]) != sel {
      LookupFirst(hash, registry, sel, 0, k);
    } else {
      var j := FirstWith(hash, registry, sel, k);
      LookupFirst(hash, registry, sel, 0, j);
    }
  }

  lemma FirstWith(hash: Hash, registry: seq<string>, selector: Bytes, k: nat) returns (j: nat)
    requires IsHash(hash) && k <= |registry|
    requires exists i :: 0 <= i < k && Selector(hash, registry[i]) == selector
    ensures j < k && Selector(hash, registry[j]) == selector
    ensures forall i :: 0 <= i < j ==> Selector(hash, registry[i]) != selector
  {
    j := 0;
    while Selector(hash, registry[j]) != selector
      invariant j < k && forall i :: 0 <= i < j ==> Selector(hash, registry[i]) != selector
      decreases k - j
    {
      j := j + 1;
    }
  }
}
