/** Decoding an `allowedType` bit mask into the labels of the categories it
    admits, and the text shown for it (src/lib/allowedParticipantsUtils.ts). */
module AllowedParticipants {
  import opened UserTypes
  import opened Text

  /** `PARTICIPANT_TYPES` with each value's entry of `PARTICIPANT_LABELS`, in
      the insertion order `Object.entries` visits them. */
  const ParticipantTypes: seq<Flag> := [
    Flag("Sinh viên", 1),
    Flag("Thành viên", 2),
    Flag("Giảng viên", 4),
    Flag("Nghiên cứu sinh", 8)
  ]

  /** The labels of the flags whose bit `mask` has set, in the flags' order. */
  function SetLabels(flags: seq<Flag>, mask: bv32): (r: seq<string>)
    ensures |r| <= |flags|
  {
    if flags == [] then []
    else
      var last := flags[|flags| - 1];
      SetLabels(flags[..|flags| - 1], mask) + (if HasBit(mask, last.value) then [last.name] else [])
  }

  /** Appending a flag appends its label when its bit is set. */
  lemma SetLabelsSnoc(flags: seq<Flag>, f: Flag, mask: bv32)
    ensures SetLabels(flags + [f], mask)
            == SetLabels(flags, mask) + (if HasBit(mask, f.value) then [f.name] else [])
  {
    assert (flags + [f])[..|flags|] == flags;
  }

  /** `getAllowedParticipants`: walk the participant types and push the label
      of every type whose bit is set in `allowedType`. */
  method GetAllowedParticipants(allowedType: bv32) returns (participants: seq<string>)
    ensures participants == SetLabels(ParticipantTypes, allowedType)
  {
    participants := [];
    var i := 0;
    while i < |ParticipantTypes|
      invariant 0 <= i <= |ParticipantTypes|
      invariant participants == SetLabels(ParticipantTypes[..i], allowedType)
    {
      var entry := ParticipantTypes[i];
      assert ParticipantTypes[..i + 1][..i] == ParticipantTypes[..i];
      if HasBit(allowedType, entry.value) {
        participants := participants + [entry.name];
      }
      i := i + 1;
    }
    assert ParticipantTypes[..i] == ParticipantTypes;
  }

  /** The decoded labels, spelled out: student, member, lecturer, researcher,
      each present exactly when its bit is set, and in that order. */
  lemma {:induction false} AllowedLabelsInOrder(mask: bv32)
    ensures SetLabels(ParticipantTypes, mask) ==
              (if mask & 1 != 0 then ["Sinh viên"] else [])
            + (if mask & 2 != 0 then ["Thành viên"] else [])
            + (if mask & 4 != 0 then ["Giảng viên"] else [])
            + (if mask & 8 != 0 then ["Nghiên cứu sinh"] else [])
  {
    var a, b, c, d := Flag("Sinh viên", 1), Flag("Thành viên", 2), Flag("Giảng viên", 4), Flag("Nghiên cứu sinh", 8);
    assert ParticipantTypes == [a, b, c, d];
    assert HasBit(mask, 1) == (mask & 1 != 0) && HasBit(mask, 2) == (mask & 2 != 0);
    assert HasBit(mask, 4) == (mask & 4 != 0) && HasBit(mask, 8) == (mask & 8 != 0);
    SetLabelsSnoc([], a, mask);
    assert [] + [a] == [a];
    SetLabelsSnoc([a], b, mask);
    assert [a] + [b] == [a, b];
    SetLabelsSnoc([a, b], c, mask);
    assert [a, b] + [c] == [a, b, c];
    SetLabelsSnoc([a, b, c], d, mask);
    assert [a, b, c] + [d] == [a, b, c, d];
  }

  /** A type's label is in the output exactly when its bit is set. */
  lemma LabelPresentIffBitSet(mask: bv32, k: nat)
    requires k < |ParticipantTypes|
    ensures ParticipantTypes[k].name in SetLabels(ParticipantTypes, mask)
            <==> HasBit(mask, ParticipantTypes[k].value)
  {
    AllowedLabelsInOrder(mask);
  }

  /** No label comes out twice. */
  lemma AllowedLabelsDistinct(mask: bv32)
    ensures var r := SetLabels(ParticipantTypes, mask);
            forall i, j :: 0 <= i < j < |r| ==> r[i] != r[j]
  {
    AllowedLabelsInOrder(mask);
  }

  /** The number of set bits among the lowest `n`. */
  function LowBitCount(x: bv32, n: nat): nat
    requires n <= 32
  {
    if n == 0 then 0 else LowBitCount(x, n - 1) + (if x & (1 << (n - 1)) != 0 then 1 else 0)
  }

  /** The output has one label per set bit among 1, 2, 4 and 8, so at most four. */
  lemma AllowedLabelsCount(mask: bv32)
    ensures |SetLabels(ParticipantTypes, mask)| == LowBitCount(mask, 4) <= 4
  {
    AllowedLabelsInOrder(mask);
    assert (1 as bv32) << 0 == 1 && (1 as bv32) << 1 == 2 && (1 as bv32) << 2 == 4 && (1 as bv32) << 3 == 8;
    assert LowBitCount(mask, 1) == (if mask & 1 != 0 then 1 else 0);
    assert LowBitCount(mask, 2) == LowBitCount(mask, 1) + (if mask & 2 != 0 then 1 else 0);
    assert LowBitCount(mask, 3) == LowBitCount(mask, 2) + (if mask & 4 != 0 then 1 else 0);
    assert LowBitCount(mask, 4) == LowBitCount(mask, 3) + (if mask & 8 != 0 then 1 else 0);
  }

  /** Bits above 8 are never consulted. */
  lemma HighBitsIgnored(mask: bv32)
    ensures SetLabels(ParticipantTypes, mask) == SetLabels(ParticipantTypes, mask & 15)
  {
    AllowedLabelsInOrder(mask);
    AllowedLabelsInOrder(mask & 15);
    assert (mask & 15) & 1 == mask & 1 && (mask & 15) & 2 == mask & 2;
    assert (mask & 15) & 4 == mask & 4 && (mask & 15) & 8 == mask & 8;
  }

  /** Nothing comes out exactly when none of the four bits is set; 0 gives nothing. */
  lemma AllowedLabelsEmptyIff(mask: bv32)
    ensures SetLabels(ParticipantTypes, mask) == [] <==> mask & 15 == 0
  {
    AllowedLabelsInOrder(mask);
  }

  /** `formatAllowedParticipants`, with the translation function `t` as a parameter. */
  function FormatAllowedParticipants(allowedType: bv32, isPublic: bool, t: string -> string): string {
    if isPublic then t("PUBLIC_EVENT_ALL")
    else
      var participants := SetLabels(ParticipantTypes, allowedType);
      if participants == [] then t("NO_PARTICIPANTS") else Join(participants, ", ")
  }

  /** A public event admits everyone, whatever its mask; otherwise no set bit
      among the four means no participants, and any set bit gives the labels
      joined with ", ". */
  lemma FormatAllowedParticipantsCases(allowedType: bv32, isPublic: bool, t: string -> string)
    ensures isPublic ==> FormatAllowedParticipants(allowedType, isPublic, t) == t("PUBLIC_EVENT_ALL")
    ensures !isPublic && allowedType & 15 == 0 ==>
              FormatAllowedParticipants(allowedType, isPublic, t) == t("NO_PARTICIPANTS")
    ensures !isPublic && allowedType & 15 != 0 ==>
              FormatAllowedParticipants(allowedType, isPublic, t)
              == Join(SetLabels(ParticipantTypes, allowedType), ", ")
  {
    AllowedLabelsEmptyIff(allowedType);
  }

  /** The participant table and the checkbox options carry the same four bit
      values in the same order, but label the member category differently. */
  lemma ParticipantTypesMatchUserTypes()
    ensures Values(ParticipantTypes) == Values(UserTypeOptions)
    ensures ParticipantTypes[1].name != UserTypeOptions[1].name
  {
    OptionsInFlagOrder();
  }
}
