/** The user categories and their bit flags (src/constant/data.ts). A user's
    `type`, an event's or training's `allowedType`, is the bitwise OR of the
    flags of the categories it covers. */
module UserTypes {

  /** One `{ label, value }` entry: a display label and the bit it stands for.
      Masks are 32-bit patterns, since JavaScript's `&` and `|` work on the
      ToInt32 image of a number. */
  datatype Flag = Flag(name: string, value: bv32)

  /** `mask & bit` is non-zero: the category is admitted. */
  predicate HasBit(mask: bv32, bit: bv32) {
    mask & bit != 0
  }

  const Student: bv32 := 1 << 0
  const Member: bv32 := 1 << 1
  const Lecturer: bv32 := 1 << 2
  const PostStudent: bv32 := 1 << 3

  /** `USER_TYPE_OPTIONS`, the checkbox options, in display order. */
  const UserTypeOptions: seq<Flag> := [
    Flag("Sinh viên", Student),
    Flag("Hội viên", Member),
    Flag("Giảng viên", Lecturer),
    Flag("Nghiên cứu sinh", PostStudent)
  ]

  /** The values of the flags, in the order given. */
  function Values(flags: seq<Flag>): (r: seq<bv32>)
    ensures |r| == |flags|
    ensures forall i :: 0 <= i < |flags| ==> r[i] == flags[i].value
  {
    if flags == [] then [] else Values(flags[..|flags| - 1]) + [flags[|flags| - 1].value]
  }

  /** The four flags are the single bits 1, 2, 4 and 8. */
  lemma FlagValues()
    ensures Student == 1 && Member == 2 && Lecturer == 4 && PostStudent == 8
  {
  }

  /** No two flags share a bit, and together they cover exactly the low four bits. */
  lemma FlagsDisjointAndCoverLowNibble()
    ensures Student & Member == 0 && Student & Lecturer == 0 && Student & PostStudent == 0
    ensures Member & Lecturer == 0 && Member & PostStudent == 0 && Lecturer & PostStudent == 0
    ensures Student | Member | Lecturer | PostStudent == 15
  {
  }

  /** Four options, one per flag, in the order student, member, lecturer,
      post-graduate student. */
  lemma OptionsInFlagOrder()
    ensures Values(UserTypeOptions) == [Student, Member, Lecturer, PostStudent]
  {
  }
}
