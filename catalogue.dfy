/**
 * Facts about the three constant tables of the wizard: every quick-start
 * skill is offered individually, and every individually offered skill sits
 * under a catalogue category. Each fact about one table entry is its own
 * small lemma, because the tables are long string literals and the verifier
 * handles one entry at a time far more cheaply than a whole table.
 */
module Catalogue {
  import opened Text
  import opened Prompts

  /** `id.split('/')[0]`: the category a skill id belongs to. */
  function FirstSegment(id: string): string {
    Split(id, '/')[0]
  }

  /**
   * The first segment of every individually offered id is the id of a
   * catalogue category, so every such skill can be fetched by its category.
   */
  lemma IndividualsUnderCategories()
    ensures forall i :: 0 <= i < |IndividualSkills| ==> FirstSegment(IndividualSkills[i].id) in CategoryIds(Categories)
  {
    OwnersFrom0();
    OwnersFrom4();
    OwnersFrom8();
    OwnersFrom12();
    OwnersFrom16();
    OwnersFrom20();
    forall i | 0 <= i < |IndividualSkills|
      ensures FirstSegment(IndividualSkills[i].id) in CategoryIds(Categories)
    {
      assert 0 <= i < 4 || 4 <= i < 8 || 8 <= i < 12 || 12 <= i < 16 || 16 <= i < 20 || 20 <= i < 24;
    }
  }

  lemma OwnersFrom0()
    ensures forall i :: 0 <= i < 4 ==> FirstSegment(IndividualSkills[i].id) in CategoryIds(Categories)
  {
    var ids := CategoryIds(Categories);
    Owner0();
    assert ids[5] == Categories[5].id;
    Owner1();
    Owner2();
    Owner3();
    forall i | 0 <= i < 4
      ensures FirstSegment(IndividualSkills[i].id) in ids
    {
      assert i == 0 || i == 1 || i == 2 || i == 3;
    }
  }

  lemma OwnersFrom4()
    ensures forall i :: 4 <= i < 8 ==> FirstSegment(IndividualSkills[i].id) in CategoryIds(Categories)
  {
    var ids := CategoryIds(Categories);
    Owner4();
    assert ids[5] == Categories[5].id;
    Owner5();
    Owner6();
    Owner7();
    forall i | 4 <= i < 8
      ensures FirstSegment(IndividualSkills[i].id) in ids
    {
      assert i == 4 || i == 5 || i == 6 || i == 7;
    }
  }

  lemma OwnersFrom8()
    ensures forall i :: 8 <= i < 12 ==> FirstSegment(IndividualSkills[i].id) in CategoryIds(Categories)
  {
    var ids := CategoryIds(Categories);
    Owner8();
    assert ids[2] == Categories[2].id;
    Owner9();
    Owner10();
    Owner11();
    assert ids[11] == Categories[11].id;
    forall i | 8 <= i < 12
      ensures FirstSegment(IndividualSkills[i].id) in ids
    {
      assert i == 8 || i == 9 || i == 10 || i == 11;
    }
  }

  lemma OwnersFrom12()
    ensures forall i :: 12 <= i < 16 ==> FirstSegment(IndividualSkills[i].id) in CategoryIds(Categories)
  {
    var ids := CategoryIds(Categories);
    Owner12();
    assert ids[11] == Categories[11].id;
    Owner13();
    Owner14();
    assert ids[7] == Categories[7].id;
    Owner15();
    forall i | 12 <= i < 16
      ensures FirstSegment(IndividualSkills[i].id) in ids
    {
      assert i == 12 || i == 13 || i == 14 || i == 15;
    }
  }

  lemma OwnersFrom16()
    ensures forall i :: 16 <= i < 20 ==> FirstSegment(IndividualSkills[i].id) in CategoryIds(Categories)
  {
    var ids := CategoryIds(Categories);
    Owner16();
    assert ids[0] == Categories[0].id;
    Owner17();
    assert ids[9] == Categories[9].id;
    Owner18();
    Owner19();
    assert ids[12] == Categories[12].id;
    forall i | 16 <= i < 20
      ensures FirstSegment(IndividualSkills[i].id) in ids
    {
      assert i == 16 || i == 17 || i == 18 || i == 19;
    }
  }

  lemma OwnersFrom20()
    ensures forall i :: 20 <= i < 24 ==> FirstSegment(IndividualSkills[i].id) in CategoryIds(Categories)
  {
    var ids := CategoryIds(Categories);
    Owner20();
    assert ids[10] == Categories[10].id;
    Owner21();
    assert ids[15] == Categories[15].id;
    Owner22();
    assert ids[14] == Categories[14].id;
    Owner23();
    assert ids[19] == Categories[19].id;
    forall i | 20 <= i < 24
      ensures FirstSegment(IndividualSkills[i].id) in ids
    {
      assert i == 20 || i == 21 || i == 22 || i == 23;
    }
  }

  lemma Owner0()
    ensures FirstSegment(IndividualSkills[0].id) == Categories[5].id
  {
    IndividualId0();
    Segment0(IndividualSkills[0].id);
    CategoryId5();
  }

  lemma Owner1()
    ensures FirstSegment(IndividualSkills[1].id) == Categories[5].id
  {
    IndividualId1();
    Segment1(IndividualSkills[1].id);
    CategoryId5();
  }

  lemma Owner2()
    ensures FirstSegment(IndividualSkills[2].id) == Categories[5].id
  {
    IndividualId2();
    Segment2(IndividualSkills[2].id);
    CategoryId5();
  }

  lemma Owner3()
    ensures FirstSegment(IndividualSkills[3].id) == Categories[5].id
  {
    IndividualId3();
    Segment3(IndividualSkills[3].id);
    CategoryId5();
  }

  lemma Owner4()
    ensures FirstSegment(IndividualSkills[4].id) == Categories[5].id
  {
    IndividualId4();
    Segment4(IndividualSkills[4].id);
    CategoryId5();
  }

  lemma Owner5()
    ensures FirstSegment(IndividualSkills[5].id) == Categories[5].id
  {
    IndividualId5();
    Segment5(IndividualSkills[5].id);
    CategoryId5();
  }

  lemma Owner6()
    ensures FirstSegment(IndividualSkills[6].id) == Categories[5].id
  {
    IndividualId6();
    Segment6(IndividualSkills[6].id);
    CategoryId5();
  }

  lemma Owner7()
    ensures FirstSegment(IndividualSkills[7].id) == Categories[5].id
  {
    IndividualId7();
    Segment7(IndividualSkills[7].id);
    CategoryId5();
  }

  lemma Owner8()
    ensures FirstSegment(IndividualSkills[8].id) == Categories[2].id
  {
    IndividualId8();
    Segment8(IndividualSkills[8].id);
    CategoryId2();
  }

  lemma Owner9()
    ensures FirstSegment(IndividualSkills[9].id) == Categories[2].id
  {
    IndividualId9();
    Segment9(IndividualSkills[9].id);
    CategoryId2();
  }

  lemma Owner10()
    ensures FirstSegment(IndividualSkills[10].id) == Categories[2].id
  {
    IndividualId10();
    Segment10(IndividualSkills[10].id);
    CategoryId2();
  }

  lemma Owner11()
    ensures FirstSegment(IndividualSkills[11].id) == Categories[11].id
  {
    IndividualId11();
    Segment11(IndividualSkills[11].id);
    CategoryId11();
  }

  lemma Owner12()
    ensures FirstSegment(IndividualSkills[12].id) == Categories[11].id
  {
    IndividualId12();
    Segment12(IndividualSkills[12].id);
    CategoryId11();
  }

  lemma Owner13()
    ensures FirstSegment(IndividualSkills[13].id) == Categories[11].id
  {
    IndividualId13();
    Segment13(IndividualSkills[13].id);
    CategoryId11();
  }

  lemma Owner14()
    ensures FirstSegment(IndividualSkills[14].id) == Categories[7].id
  {
    IndividualId14();
    Segment14(IndividualSkills[14].id);
    CategoryId7();
  }

  lemma Owner15()
    ensures FirstSegment(IndividualSkills[15].id) == Categories[7].id
  {
    IndividualId15();
    Segment15(IndividualSkills[15].id);
    CategoryId7();
  }

  lemma Owner16()
    ensures FirstSegment(IndividualSkills[16].id) == Categories[0].id
  {
    IndividualId16();
    Segment16(IndividualSkills[16].id);
    CategoryId0();
  }

  lemma Owner17()
    ensures FirstSegment(IndividualSkills[17].id) == Categories[9].id
  {
    IndividualId17();
    Segment17(IndividualSkills[17].id);
    CategoryId9();
  }

  lemma Owner18()
    ensures FirstSegment(IndividualSkills[18].id) == Categories[9].id
  {
    IndividualId18();
    Segment18(IndividualSkills[18].id);
    CategoryId9();
  }

  lemma Owner19()
    ensures FirstSegment(IndividualSkills[19].id) == Categories[12].id
  {
    IndividualId19();
    Segment19(IndividualSkills[19].id);
    CategoryId12();
  }

  lemma Owner20()
    ensures FirstSegment(IndividualSkills[20].id) == Categories[10].id
  {
    IndividualId20();
    Segment20(IndividualSkills[20].id);
    CategoryId10();
  }

  lemma Owner21()
    ensures FirstSegment(IndividualSkills[21].id) == Categories[15].id
  {
    IndividualId21();
    Segment21(IndividualSkills[21].id);
    CategoryId15();
  }

  lemma Owner22()
    ensures FirstSegment(IndividualSkills[22].id) == Categories[14].id
  {
    IndividualId22();
    Segment22(IndividualSkills[22].id);
    CategoryId14();
  }

  lemma Owner23()
    ensures FirstSegment(IndividualSkills[23].id) == Categories[19].id
  {
    IndividualId23();
    Segment23(IndividualSkills[23].id);
    CategoryId19();
  }

  lemma Segment0(id: string)
    requires id == "06-post-training/grpo-rl-training"
    ensures FirstSegment(id) == "06-post-training"
  {
    SegmentOf("06-post-training", "grpo-rl-training");
    assert "06-post-training" + "/" + "grpo-rl-training" == "06-post-training/grpo-rl-training";
  }

  lemma Segment1(id: string)
    requires id == "06-post-training/verl"
    ensures FirstSegment(id) == "06-post-training"
  {
    SegmentOf("06-post-training", "verl");
    assert "06-post-training" + "/" + "verl" == "06-post-training/verl";
  }

  lemma Segment2(id: string)
    requires id == "06-post-training/slime"
    ensures FirstSegment(id) == "06-post-training"
  {
    SegmentOf("06-post-training", "slime");
    assert "06-post-training" + "/" + "slime" == "06-post-training/slime";
  }

  lemma Segment3(id: string)
    requires id == "06-post-training/miles"
    ensures FirstSegment(id) == "06-post-training"
  {
    SegmentOf("06-post-training", "miles");
    assert "06-post-training" + "/" + "miles" == "06-post-training/miles";
  }

  lemma Segment4(id: string)
    requires id == "06-post-training/torchforge"
    ensures FirstSegment(id) == "06-post-training"
  {
    SegmentOf("06-post-training", "torchforge");
    assert "06-post-training" + "/" + "torchforge" == "06-post-training/torchforge";
  }

  lemma Segment5(id: string)
    requires id == "06-post-training/trl-fine-tuning"
    ensures FirstSegment(id) == "06-post-training"
  {
    SegmentOf("06-post-training", "trl-fine-tuning");
    assert "06-post-training" + "/" + "trl-fine-tuning" == "06-post-training/trl-fine-tuning";
  }

  lemma Segment6(id: string)
    requires id == "06-post-training/openrlhf"
    ensures FirstSegment(id) == "06-post-training"
  {
    SegmentOf("06-post-training", "openrlhf");
    assert "06-post-training" + "/" + "openrlhf" == "06-post-training/openrlhf";
  }

  lemma Segment7(id: string)
    requires id == "06-post-training/simpo"
    ensures FirstSegment(id) == "06-post-training"
  {
    SegmentOf("06-post-training", "simpo");
    assert "06-post-training" + "/" + "simpo" == "06-post-training/simpo";
  }

  lemma Segment8(id: string)
    requires id == "03-fine-tuning/axolotl"
    ensures FirstSegment(id) == "03-fine-tuning"
  {
    SegmentOf("03-fine-tuning", "axolotl");
    assert "03-fine-tuning" + "/" + "axolotl" == "03-fine-tuning/axolotl";
  }

  lemma Segment9(id: string)
    requires id == "03-fine-tuning/unsloth"
    ensures FirstSegment(id) == "03-fine-tuning"
  {
    SegmentOf("03-fine-tuning", "unsloth");
    assert "03-fine-tuning" + "/" + "unsloth" == "03-fine-tuning/unsloth";
  }

  lemma Segment10(id: string)
    requires id == "03-fine-tuning/torchtune"
    ensures FirstSegment(id) == "03-fine-tuning"
  {
    SegmentOf("03-fine-tuning", "torchtune");
    assert "03-fine-tuning" + "/" + "torchtune" == "03-fine-tuning/torchtune";
  }

  lemma Segment11(id: string)
    requires id == "12-inference-serving/vllm"
    ensures FirstSegment(id) == "12-inference-serving"
  {
    SegmentOf("12-inference-serving", "vllm");
    assert "12-inference-serving" + "/" + "vllm" == "12-inference-serving/vllm";
  }

  lemma Segment12(id: string)
    requires id == "12-inference-serving/sglang"
    ensures FirstSegment(id) == "12-inference-serving"
  {
    SegmentOf("12-inference-serving", "sglang");
    assert "12-inference-serving" + "/" + "sglang" == "12-inference-serving/sglang";
  }

  lemma Segment13(id: string)
    requires id == "12-inference-serving/tensorrt-llm"
    ensures FirstSegment(id) == "12-inference-serving"
  {
    SegmentOf("12-inference-serving", "tensorrt-llm");
    assert "12-inference-serving" + "/" + "tensorrt-llm" == "12-inference-serving/tensorrt-llm";
  }

  lemma Segment14(id: string)
    requires id == "08-distributed-training/deepspeed"
    ensures FirstSegment(id) == "08-distributed-training"
  {
    SegmentOf("08-distributed-training", "deepspeed");
    assert "08-distributed-training" + "/" + "deepspeed" == "08-distributed-training/deepspeed";
  }

  lemma Segment15(id: string)
    requires id == "08-distributed-training/fsdp"
    ensures FirstSegment(id) == "08-distributed-training"
  {
    SegmentOf("08-distributed-training", "fsdp");
    assert "08-distributed-training" + "/" + "fsdp" == "08-distributed-training/fsdp";
  }

  lemma Segment16(id: string)
    requires id == "01-model-architecture/torchtitan"
    ensures FirstSegment(id) == "01-model-architecture"
  {
    SegmentOf("01-model-architecture", "torchtitan");
    assert "01-model-architecture" + "/" + "torchtitan" == "01-model-architecture/torchtitan";
  }

  lemma Segment17(id: string)
    requires id == "10-optimization/flash-attention"
    ensures FirstSegment(id) == "10-optimization"
  {
    SegmentOf("10-optimization", "flash-attention");
    assert "10-optimization" + "/" + "flash-attention" == "10-optimization/flash-attention";
  }

  lemma Segment18(id: string)
    requires id == "10-optimization/gptq"
    ensures FirstSegment(id) == "10-optimization"
  {
    SegmentOf("10-optimization", "gptq");
    assert "10-optimization" + "/" + "gptq" == "10-optimization/gptq";
  }

  lemma Segment19(id: string)
    requires id == "13-mlops/wandb"
    ensures FirstSegment(id) == "13-mlops"
  {
    SegmentOf("13-mlops", "wandb");
    assert "13-mlops" + "/" + "wandb" == "13-mlops/wandb";
  }

  lemma Segment20(id: string)
    requires id == "11-evaluation/lm-eval-harness"
    ensures FirstSegment(id) == "11-evaluation"
  {
    SegmentOf("11-evaluation", "lm-eval-harness");
    assert "11-evaluation" + "/" + "lm-eval-harness" == "11-evaluation/lm-eval-harness";
  }

  lemma Segment21(id: string)
    requires id == "16-prompt-engineering/dspy"
    ensures FirstSegment(id) == "16-prompt-engineering"
  {
    SegmentOf("16-prompt-engineering", "dspy");
    assert "16-prompt-engineering" + "/" + "dspy" == "16-prompt-engineering/dspy";
  }

  lemma Segment22(id: string)
    requires id == "15-rag/chroma"
    ensures FirstSegment(id) == "15-rag"
  {
    SegmentOf("15-rag", "chroma");
    assert "15-rag" + "/" + "chroma" == "15-rag/chroma";
  }

  lemma Segment23(id: string)
    requires id == "20-ml-paper-writing"
    ensures FirstSegment(id) == "20-ml-paper-writing"
  {
    SplitNoSep("20-ml-paper-writing", '/');
  }

  lemma CategoryId0() ensures Categories[0].id == "01-model-architecture" {}
  lemma CategoryId2() ensures Categories[2].id == "03-fine-tuning" {}
  lemma CategoryId5() ensures Categories[5].id == "06-post-training" {}
  lemma CategoryId7() ensures Categories[7].id == "08-distributed-training" {}
  lemma CategoryId9() ensures Categories[9].id == "10-optimization" {}
  lemma CategoryId10() ensures Categories[10].id == "11-evaluation" {}
  lemma CategoryId11() ensures Categories[11].id == "12-inference-serving" {}
  lemma CategoryId12() ensures Categories[12].id == "13-mlops" {}
  lemma CategoryId14() ensures Categories[14].id == "15-rag" {}
  lemma CategoryId15() ensures Categories[15].id == "16-prompt-engineering" {}
  lemma CategoryId19() ensures Categories[19].id == "20-ml-paper-writing" {}

  lemma IndividualId0() ensures IndividualSkills[0].id == "06-post-training/grpo-rl-training" {}
  lemma IndividualId1() ensures IndividualSkills[1].id == "06-post-training/verl" {}
  lemma IndividualId2() ensures IndividualSkills[2].id == "06-post-training/slime" {}
  lemma IndividualId3() ensures IndividualSkills[3].id == "06-post-training/miles" {}
  lemma IndividualId4() ensures IndividualSkills[4].id == "06-post-training/torchforge" {}
  lemma IndividualId5() ensures IndividualSkills[5].id == "06-post-training/trl-fine-tuning" {}
  lemma IndividualId6() ensures IndividualSkills[6].id == "06-post-training/openrlhf" {}
  lemma IndividualId7() ensures IndividualSkills[7].id == "06-post-training/simpo" {}
  lemma IndividualId8() ensures IndividualSkills[8].id == "03-fine-tuning/axolotl" {}
  lemma IndividualId9() ensures IndividualSkills[9].id == "03-fine-tuning/unsloth" {}
  lemma IndividualId10() ensures IndividualSkills[10].id == "03-fine-tuning/torchtune" {}
  lemma IndividualId11() ensures IndividualSkills[11].id == "12-inference-serving/vllm" {}
  lemma IndividualId12() ensures IndividualSkills[12].id == "12-inference-serving/sglang" {}
  lemma IndividualId13() ensures IndividualSkills[13].id == "12-inference-serving/tensorrt-llm" {}
  lemma IndividualId14() ensures IndividualSkills[14].id == "08-distributed-training/deepspeed" {}
  lemma IndividualId15() ensures IndividualSkills[15].id == "08-distributed-training/fsdp" {}
  lemma IndividualId16() ensures IndividualSkills[16].id == "01-model-architecture/torchtitan" {}
  lemma IndividualId17() ensures IndividualSkills[17].id == "10-optimization/flash-attention" {}
  lemma IndividualId18() ensures IndividualSkills[18].id == "10-optimization/gptq" {}
  lemma IndividualId19() ensures IndividualSkills[19].id == "13-mlops/wandb" {}
  lemma IndividualId20() ensures IndividualSkills[20].id == "11-evaluation/lm-eval-harness" {}
  lemma IndividualId21() ensures IndividualSkills[21].id == "16-prompt-engineering/dspy" {}
  lemma IndividualId22() ensures IndividualSkills[22].id == "15-rag/chroma" {}
  lemma IndividualId23() ensures IndividualSkills[23].id == "20-ml-paper-writing" {}

  lemma SegmentOf(c: string, r: string)
    requires '/' !in c
    ensures FirstSegment(c + "/" + r) == c
  {
    SplitAtSep(c, r, '/');
  }

  /** Every quick-start skill is one of the individually offered skills. */
  lemma QuickStartOffered()
    ensures forall q :: 0 <= q < |QuickStartSkills| ==> QuickStartSkills[q] in IndividualIds()
  {
    OfferedFrom0();
    OfferedFrom5();
    OfferedFrom10();
    forall q | 0 <= q < |QuickStartSkills|
      ensures QuickStartSkills[q] in IndividualIds()
    {
      assert 0 <= q < 5 || 5 <= q < 10 || 10 <= q < 14;
    }
  }

  lemma OfferedFrom0()
    ensures forall q :: 0 <= q < 5 ==> QuickStartSkills[q] in IndividualIds()
  {
    var ids := IndividualIds();
    QuickStart0();
    assert ids[0] == IndividualSkills[0].id;
    QuickStart1();
    assert ids[1] == IndividualSkills[1].id;
    QuickStart2();
    assert ids[5] == IndividualSkills[5].id;
    QuickStart3();
    assert ids[8] == IndividualSkills[8].id;
    QuickStart4();
    assert ids[9] == IndividualSkills[9].id;
    forall q | 0 <= q < 5
      ensures QuickStartSkills[q] in ids
    {
      assert q == 0 || q == 1 || q == 2 || q == 3 || q == 4;
    }
  }

  lemma OfferedFrom5()
    ensures forall q :: 5 <= q < 10 ==> QuickStartSkills[q] in IndividualIds()
  {
    var ids := IndividualIds();
    QuickStart5();
    assert ids[11] == IndividualSkills[11].id;
    QuickStart6();
    assert ids[12] == IndividualSkills[12].id;
    QuickStart7();
    assert ids[14] == IndividualSkills[14].id;
    QuickStart8();
    assert ids[17] == IndividualSkills[17].id;
    QuickStart9();
    assert ids[19] == IndividualSkills[19].id;
    forall q | 5 <= q < 10
      ensures QuickStartSkills[q] in ids
    {
      assert q == 5 || q == 6 || q == 7 || q == 8 || q == 9;
    }
  }

  lemma OfferedFrom10()
    ensures forall q :: 10 <= q < 14 ==> QuickStartSkills[q] in IndividualIds()
  {
    var ids := IndividualIds();
    QuickStart10();
    assert ids[20] == IndividualSkills[20].id;
    QuickStart11();
    assert ids[21] == IndividualSkills[21].id;
    QuickStart12();
    assert ids[22] == IndividualSkills[22].id;
    QuickStart13();
    assert ids[23] == IndividualSkills[23].id;
    forall q | 10 <= q < 14
      ensures QuickStartSkills[q] in ids
    {
      assert q == 10 || q == 11 || q == 12 || q == 13;
    }
  }

  lemma QuickStart0() ensures QuickStartSkills[0] == IndividualSkills[0].id {}
  lemma QuickStart1() ensures QuickStartSkills[1] == IndividualSkills[1].id {}
  lemma QuickStart2() ensures QuickStartSkills[2] == IndividualSkills[5].id {}
  lemma QuickStart3() ensures QuickStartSkills[3] == IndividualSkills[8].id {}
  lemma QuickStart4() ensures QuickStartSkills[4] == IndividualSkills[9].id {}
  lemma QuickStart5() ensures QuickStartSkills[5] == IndividualSkills[11].id {}
  lemma QuickStart6() ensures QuickStartSkills[6] == IndividualSkills[12].id {}
  lemma QuickStart7() ensures QuickStartSkills[7] == IndividualSkills[14].id {}
  lemma QuickStart8() ensures QuickStartSkills[8] == IndividualSkills[17].id {}
  lemma QuickStart9() ensures QuickStartSkills[9] == IndividualSkills[19].id {}
  lemma QuickStart10() ensures QuickStartSkills[10] == IndividualSkills[20].id {}
  lemma QuickStart11() ensures QuickStartSkills[11] == IndividualSkills[21].id {}
  lemma QuickStart12() ensures QuickStartSkills[12] == IndividualSkills[22].id {}
  lemma QuickStart13() ensures QuickStartSkills[13] == IndividualSkills[23].id {}
}
