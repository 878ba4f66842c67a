/** The field table of transaction payloads, and why no two of its names are the same. */
module PayloadTable {
  import opened Json
  import opened Encoding
  import opened UniqueReading

  // `TxPayload`, in declaration order, eight fields at a time.

  function Group0(): seq<Field> {
    [Field(T("to_pub_key_hex"), StrKind, Nullable), Field(T("amount"), UintKind(U64_MAX), Nullable),
     Field(T("faucet"), BoolKind, Nullable), Field(T("target_pub_key"), StrKind, Nullable),
     Field(T("reason"), StrKind, Nullable), Field(T("token_name"), StrKind, Nullable),
     Field(T("token_symbol"), StrKind, Nullable), Field(T("token_decimals"), UintKind(U8_MAX), Nullable)]
  }

  function Group1(): seq<Field> {
    [Field(T("token_total_supply"), UintKind(U64_MAX), Nullable), Field(T("metadata_image"), StrKind, Nullable),
     Field(T("metadata_description"), StrKind, Nullable), Field(T("metadata_website"), StrKind, Nullable),
     Field(T("metadata_twitter"), StrKind, Nullable), Field(T("metadata_discord"), StrKind, Nullable),
     Field(T("pool_id"), StrKind, Nullable), Field(T("token_a_symbol"), StrKind, Nullable)]
  }

  function Group2(): seq<Field> {
    [Field(T("token_b_symbol"), StrKind, Nullable), Field(T("amount_a"), UintKind(U64_MAX), Nullable),
     Field(T("amount_b"), UintKind(U64_MAX), Nullable), Field(T("min_amount_out"), UintKind(U64_MAX), Nullable),
     Field(T("swap_path"), StrsKind, Nullable), Field(T("lp_amount"), UintKind(U64_MAX), Nullable),
     Field(T("evm_address"), StrKind, Nullable), Field(T("nft_collection_symbol"), StrKind, Skipped)]
  }

  function Group3(): seq<Field> {
    [Field(T("nft_collection_name"), StrKind, Skipped), Field(T("nft_collection_id"), StrKind, Skipped),
     Field(T("nft_description"), StrKind, Skipped), Field(T("nft_image"), StrKind, Skipped),
     Field(T("nft_max_supply"), UintKind(U64_MAX), Skipped), Field(T("nft_royalty_bps"), UintKind(U16_MAX), Skipped),
     Field(T("nft_royalty_recipient"), StrKind, Skipped), Field(T("nft_token_id"), UintKind(U64_MAX), Skipped)]
  }

  function Group4(): seq<Field> {
    [Field(T("nft_token_name"), StrKind, Skipped), Field(T("nft_metadata_uri"), StrKind, Skipped),
     Field(T("nft_attributes"), ValueKind, Skipped), Field(T("nft_locked"), BoolKind, Skipped),
     Field(T("nft_public_mint"), BoolKind, Nullable), Field(T("nft_mint_price"), F64Kind, Skipped),
     Field(T("nft_token_gate_symbol"), StrKind, Skipped), Field(T("nft_token_gate_amount"), F64Kind, Skipped)]
  }

  function Group5(): seq<Field> {
    [Field(T("nft_discount_pct"), UintKind(U32_MAX), Skipped), Field(T("nft_frozen"), BoolKind, Skipped),
     Field(T("nft_batch_names"), StrsKind, Skipped), Field(T("nft_batch_uris"), StrsKind, Skipped),
     Field(T("nft_batch_attributes"), ValuesKind, Skipped), Field(T("shielded_nullifiers"), StrsKind, Skipped),
     Field(T("shielded_output_commitments"), StrsKind, Skipped), Field(T("shielded_proof"), StrKind, Skipped)]
  }

  function Group6(): seq<Field> {
    [Field(T("shielded_fee"), UintKind(U64_MAX), Skipped), Field(T("shielded_commitment"), StrKind, Skipped),
     Field(T("shielded_value"), UintKind(U64_MAX), Skipped), Field(T("shielded_randomness"), StrKind, Skipped),
     Field(T("lock_until_height"), UintKind(U64_MAX), Skipped), Field(T("lock_id"), StrKind, Skipped),
     Field(T("staking_pool_id"), StrKind, Skipped), Field(T("staking_reward_rate"), UintKind(U64_MAX), Skipped)]
  }

  function Group7(): seq<Field> {
    [Field(T("proposal_id"), StrKind, Skipped), Field(T("proposal_title"), StrKind, Skipped),
     Field(T("proposal_description"), StrKind, Skipped), Field(T("vote_option"), StrKind, Skipped),
     Field(T("proposal_end_height"), UintKind(U64_MAX), Skipped), Field(T("proposal_type"), StrKind, Skipped),
     Field(T("proposal_action_payload"), ValueKind, Skipped), Field(T("proposal_quorum"), UintKind(U64_MAX), Skipped)]
  }

  function Group8(): seq<Field> {
    [Field(T("proposal_timelock_blocks"), UintKind(U64_MAX), Skipped), Field(T("delegate_to"), StrKind, Skipped),
     Field(T("spender_pub_key"), StrKind, Skipped), Field(T("allowance_amount"), UintKind(U64_MAX), Skipped),
     Field(T("owner_pub_key"), StrKind, Skipped), Field(T("airdrop_recipients"), StrsKind, Skipped),
     Field(T("airdrop_amounts"), U64sKind, Skipped), Field(T("contract_wasm"), StrKind, Skipped)]
  }

  function Group9(): seq<Field> {
    [Field(T("contract_addr"), StrKind, Skipped), Field(T("contract_method"), StrKind, Skipped),
     Field(T("contract_args"), ValueKind, Skipped), Field(T("contract_gas_limit"), UintKind(U64_MAX), Skipped),
     Field(T("contract_attach_symbol"), StrKind, Skipped),
     Field(T("contract_attach_amount"), UintKind(U64_MAX), Skipped), Field(T("multisig_wallet_id"), StrKind, Skipped),
     Field(T("multisig_signers"), StrsKind, Skipped)]
  }

  function Group10(): seq<Field> {
    [Field(T("multisig_threshold"), UintKind(U32_MAX), Skipped), Field(T("multisig_label"), StrKind, Skipped),
     Field(T("multisig_proposal_id"), StrKind, Skipped), Field(T("multisig_proposal_tx_type"), StrKind, Skipped),
     Field(T("multisig_proposal_payload"), ValueKind, Skipped), Field(T("multisig_proposal_fee"), F64Kind, Skipped),
     Field(T("multisig_approval_sig"), StrKind, Skipped), Field(T("limit_order_id"), StrKind, Skipped)]
  }

  function Group11(): seq<Field> {
    [Field(T("limit_order_expires"), UintKind(U64_MAX), Skipped), Field(T("token_mintable"), BoolKind, Skipped),
     Field(T("token_max_supply"), UintKind(U64_MAX), Skipped), Field(T("shield_v2_body"), StrKind, Skipped),
     Field(T("shield_v2_proof"), StrKind, Skipped)]
  }

  function LaterFields(): seq<Field> {
    Group6() + (Group7() + (Group8() + (Group9() + (Group10() + Group11()))))
  }

  function PayloadFields(): seq<Field> {
    Group0() + (Group1() + (Group2() + (Group3() + (Group4() + (Group5() + LaterFields())))))
  }

  // ---------------------------------------------------------------- distinct names

  function UnitAt(t: Text, i: int): int {
    if 0 <= i < |t| then t[i] else 0
  }

  /** The length and three characters of a name tell it from all others in the table. */
  function Code(t: Text): int {
    |t| + 31 * UnitAt(t, 6) + 2 * UnitAt(t, |t| - 1) + 5 * UnitAt(t, |t| - 5)
  }

  /** Where in the table the name with this code stands. */
  function Place(code: int): nat {
    if code <= 3743 then Place0(code)
    else if code <= 3825 then Place1(code)
    else if code <= 3890 then Place2(code)
    else if code <= 4016 then Place3(code)
    else if code <= 4160 then Place4(code)
    else if code <= 4267 then Place5(code)
    else if code <= 4391 then Place6(code)
    else Place7(code)
  }

  function Place0(code: int): nat {
    match code
    case 723 => 2 case 731 => 4 case 783 => 1 case 3676 => 91 case 3691 => 3 case 3697 => 61 case 3699 => 20
    case 3703 => 56 case 3724 => 92 case 3732 => 17 case 3734 => 18 case 3743 => 27
    case _ => 93
  }

  function Place1(code: int): nat {
    match code
    case 3760 => 36 case 3763 => 60 case 3775 => 71 case 3785 => 72 case 3787 => 74 case 3789 => 73 case 3801 => 64
    case 3802 => 53 case 3803 => 57 case 3804 => 0 case 3807 => 58 case 3825 => 63
    case _ => 93
  }

  function Place2(code: int): nat {
    match code
    case 3834 => 35 case 3835 => 62 case 3841 => 22 case 3842 => 15 case 3845 => 48 case 3859 => 75 case 3862 => 14
    case 3868 => 77 case 3869 => 7 case 3873 => 16 case 3889 => 55 case 3890 => 45
    case _ => 93
  }

  function Place3(code: int): nat {
    match code
    case 3909 => 47 case 3912 => 76 case 3925 => 51 case 3933 => 46 case 3937 => 50 case 3957 => 83 case 3960 => 82
    case 3962 => 49 case 3963 => 54 case 3978 => 78 case 4008 => 32 case 4016 => 79
    case _ => 93
  }

  function Place4(code: int): nat {
    match code
    case 4018 => 85 case 4022 => 86 case 4025 => 81 case 4034 => 31 case 4044 => 24 case 4048 => 80 case 4085 => 84
    case 4097 => 5 case 4115 => 39 case 4120 => 25 case 4159 => 38 case 4160 => 87
    case _ => 93
  }

  function Place5(code: int): nat {
    match code
    case 4164 => 52 case 4175 => 89 case 4186 => 37 case 4190 => 23 case 4203 => 67 case 4217 => 68 case 4222 => 90
    case 4241 => 41 case 4245 => 69 case 4250 => 88 case 4263 => 59 case 4267 => 19
    case _ => 93
  }

  function Place6(code: int): nat {
    match code
    case 4272 => 70 case 4281 => 66 case 4304 => 11 case 4307 => 33 case 4315 => 43 case 4330 => 34 case 4336 => 44
    case 4337 => 9 case 4360 => 26 case 4365 => 12 case 4387 => 13 case 4391 => 42
    case _ => 93
  }

  function Place7(code: int): nat {
    match code
    case 4393 => 40 case 4396 => 10 case 4398 => 6 case 4409 => 65 case 4413 => 21 case 4441 => 8 case 4561 => 28
    case 4564 => 30 case 4601 => 29
    case _ => 93
  }

  /** Each field's name has the code of its place, counted from `base`. */
  ghost predicate InPlace(fields: seq<Field>, base: nat) {
    forall i | 0 <= i < |fields| :: Place(Code(fields[i].name)) == base + i
  }

  lemma Append(a: seq<Field>, b: seq<Field>, base: nat)
    requires InPlace(a, base) && InPlace(b, base + |a|)
    ensures InPlace(a + b, base)
  {
    hide Place, Code;
  }

  lemma Group0Codes()
    ensures Code(T("to_pub_key_hex")) == 3804 && Code(T("amount")) == 783
    ensures Code(T("faucet")) == 723 && Code(T("target_pub_key")) == 3691
    ensures Code(T("reason")) == 731 && Code(T("token_name")) == 4097
    ensures Code(T("token_symbol")) == 4398 && Code(T("token_decimals")) == 3869
  {
  }

  lemma Group0InPlace()
    ensures |Group0()| == 8 && InPlace(Group0(), 0)
  {
    hide T, Code;
    Group0Codes();
  }

  lemma Group1Codes()
    ensures Code(T("token_total_supply")) == 4441 && Code(T("metadata_image")) == 4337
    ensures Code(T("metadata_description")) == 4396 && Code(T("metadata_website")) == 4304
    ensures Code(T("metadata_twitter")) == 4365 && Code(T("metadata_discord")) == 4387
    ensures Code(T("pool_id")) == 3862 && Code(T("token_a_symbol")) == 3842
  {
  }

  lemma Group1InPlace()
    ensures |Group1()| == 8 && InPlace(Group1(), 8)
  {
    hide T, Code;
    Group1Codes();
  }

  lemma Group2Codes()
    ensures Code(T("token_b_symbol")) == 3873 && Code(T("amount_a")) == 3732
    ensures Code(T("amount_b")) == 3734 && Code(T("min_amount_out")) == 4267
    ensures Code(T("swap_path")) == 3699 && Code(T("lp_amount")) == 4413
    ensures Code(T("evm_address")) == 3841 && Code(T("nft_collection_symbol")) == 4190
  {
  }

  lemma Group2InPlace()
    ensures |Group2()| == 8 && InPlace(Group2(), 16)
  {
    hide T, Code;
    Group2Codes();
  }

  lemma Group3Codes()
    ensures Code(T("nft_collection_name")) == 4044 && Code(T("nft_collection_id")) == 4120
    ensures Code(T("nft_description")) == 4360 && Code(T("nft_image")) == 3743
    ensures Code(T("nft_max_supply")) == 4561 && Code(T("nft_royalty_bps")) == 4601
    ensures Code(T("nft_royalty_recipient")) == 4564 && Code(T("nft_token_id")) == 4034
  {
  }

  lemma Group3InPlace()
    ensures |Group3()| == 8 && InPlace(Group3(), 24)
  {
    hide T, Code;
    Group3Codes();
  }

  lemma Group4Codes()
    ensures Code(T("nft_token_name")) == 4008 && Code(T("nft_metadata_uri")) == 4307
    ensures Code(T("nft_attributes")) == 4330 && Code(T("nft_locked")) == 3834
    ensures Code(T("nft_public_mint")) == 3760 && Code(T("nft_mint_price")) == 4186
    ensures Code(T("nft_token_gate_symbol")) == 4159 && Code(T("nft_token_gate_amount")) == 4115
  {
  }

  lemma Group4InPlace()
    ensures |Group4()| == 8 && InPlace(Group4(), 32)
  {
    hide T, Code;
    Group4Codes();
  }

  lemma Group5Codes()
    ensures Code(T("nft_discount_pct")) == 4393 && Code(T("nft_frozen")) == 4241
    ensures Code(T("nft_batch_names")) == 4391 && Code(T("nft_batch_uris")) == 4315
    ensures Code(T("nft_batch_attributes")) == 4336 && Code(T("shielded_nullifiers")) == 3890
    ensures Code(T("shielded_output_commitments")) == 3933 && Code(T("shielded_proof")) == 3909
  {
  }

  lemma Group5InPlace()
    ensures |Group5()| == 8 && InPlace(Group5(), 40)
  {
    hide T, Code;
    Group5Codes();
  }

  lemma Group6Codes()
    ensures Code(T("shielded_fee")) == 3845 && Code(T("shielded_commitment")) == 3962
    ensures Code(T("shielded_value")) == 3937 && Code(T("shielded_randomness")) == 3925
    ensures Code(T("lock_until_height")) == 4164 && Code(T("lock_id")) == 3802
    ensures Code(T("staking_pool_id")) == 3963 && Code(T("staking_reward_rate")) == 3889
  {
  }

  lemma Group6InPlace()
    ensures |Group6()| == 8 && InPlace(Group6(), 48)
  {
    hide T, Code;
    Group6Codes();
  }

  lemma Group7Codes()
    ensures Code(T("proposal_id")) == 3703 && Code(T("proposal_title")) == 3803
    ensures Code(T("proposal_description")) == 3807 && Code(T("vote_option")) == 4263
    ensures Code(T("proposal_end_height")) == 3763 && Code(T("proposal_type")) == 3697
    ensures Code(T("proposal_action_payload")) == 3835 && Code(T("proposal_quorum")) == 3825
  {
  }

  lemma Group7InPlace()
    ensures |Group7()| == 8 && InPlace(Group7(), 56)
  {
    hide T, Code;
    Group7Codes();
  }

  lemma Group8Codes()
    ensures Code(T("proposal_timelock_blocks")) == 3801 && Code(T("delegate_to")) == 4409
    ensures Code(T("spender_pub_key")) == 4281 && Code(T("allowance_amount")) == 4203
    ensures Code(T("owner_pub_key")) == 4217 && Code(T("airdrop_recipients")) == 4245
    ensures Code(T("airdrop_amounts")) == 4272 && Code(T("contract_wasm")) == 3775
  {
  }

  lemma Group8InPlace()
    ensures |Group8()| == 8 && InPlace(Group8(), 64)
  {
    hide T, Code;
    Group8Codes();
  }

  lemma Group9Codes()
    ensures Code(T("contract_addr")) == 3785 && Code(T("contract_method")) == 3789
    ensures Code(T("contract_args")) == 3787 && Code(T("contract_gas_limit")) == 3859
    ensures Code(T("contract_attach_symbol")) == 3912 && Code(T("contract_attach_amount")) == 3868
    ensures Code(T("multisig_wallet_id")) == 3978 && Code(T("multisig_signers")) == 4016
  {
  }

  lemma Group9InPlace()
    ensures |Group9()| == 8 && InPlace(Group9(), 72)
  {
    hide T, Code;
    Group9Codes();
  }

  lemma Group10Codes()
    ensures Code(T("multisig_threshold")) == 4048 && Code(T("multisig_label")) == 4025
    ensures Code(T("multisig_proposal_id")) == 3960 && Code(T("multisig_proposal_tx_type")) == 3957
    ensures Code(T("multisig_proposal_payload")) == 4085 && Code(T("multisig_proposal_fee")) == 4018
    ensures Code(T("multisig_approval_sig")) == 4022 && Code(T("limit_order_id")) == 4160
  {
  }

  lemma Group10InPlace()
    ensures |Group10()| == 8 && InPlace(Group10(), 80)
  {
    hide T, Code;
    Group10Codes();
  }

  lemma Group11Codes()
    ensures Code(T("limit_order_expires")) == 4250 && Code(T("token_mintable")) == 4175
    ensures Code(T("token_max_supply")) == 4222 && Code(T("shield_v2_body")) == 3676
    ensures Code(T("shield_v2_proof")) == 3724
  {
  }

  lemma Group11InPlace()
    ensures |Group11()| == 5 && InPlace(Group11(), 88)
  {
    hide T, Code;
    Group11Codes();
  }

  /** No two payload fields share a name. */
  lemma PayloadNamesDiffer()
    ensures DistinctNames(PayloadFields())
  {
    hide InPlace, Group0, Group1, Group2, Group3, Group4, Group5, Group6, Group7, Group8, Group9, Group10, Group11;
    Group0InPlace();
    Group1InPlace();
    Group2InPlace();
    Group3InPlace();
    Group4InPlace();
    Group5InPlace();
    Group6InPlace();
    Group7InPlace();
    Group8InPlace();
    Group9InPlace();
    Group10InPlace();
    Group11InPlace();
    Append(Group10(), Group11(), 80);
    Append(Group9(), Group10() + Group11(), 72);
    Append(Group8(), Group9() + (Group10() + Group11()), 64);
    Append(Group7(), Group8() + (Group9() + (Group10() + Group11())), 56);
    Append(Group6(), Group7() + (Group8() + (Group9() + (Group10() + Group11()))), 48);
    Append(Group5(), LaterFields(), 40);
    Append(Group4(), Group5() + LaterFields(), 32);
    Append(Group3(), Group4() + (Group5() + LaterFields()), 24);
    Append(Group2(), Group3() + (Group4() + (Group5() + LaterFields())), 16);
    Append(Group1(), Group2() + (Group3() + (Group4() + (Group5() + LaterFields()))), 8);
    Append(Group0(), Group1() + (Group2() + (Group3() + (Group4() + (Group5() + LaterFields())))), 0);
    PlacesDiffer(PayloadFields());
  }

  lemma PlacesDiffer(fields: seq<Field>)
    requires InPlace(fields, 0)
    ensures DistinctNames(fields)
  {
    hide Place, Code;
  }
}
