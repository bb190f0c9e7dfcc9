/**
 * The keys of the city and possession tables after str.title(), one word at a time: the
 * canonical city names and status labels the parser returns.
 */
module TitledKeys {
  import opened Text

  lemma TitledMumbai() ensures TitleCase("mumbai") == "Mumbai" {
    var r := TitleCase("mumbai");
    assert |r| == 6;
  }

  lemma TitledPune() ensures TitleCase("pune") == "Pune" {
    var r := TitleCase("pune");
    assert |r| == 4;
  }

  lemma TitledBangalore() ensures TitleCase("bangalore") == "Bangalore" {
    BangaloreSplit();
    TitleCaseAppendLower("bang", "alore");
    TitledBang();
  }

  lemma TitledBang() ensures TitleCase("bang") == "Bang" {
    var r := TitleCase("bang");
    assert |r| == 4;
  }

  lemma BangaloreSplit()
    ensures "bangalore" == "bang" + "alore" && "Bangalore" == "Bang" + "alore"
  {
  }

  lemma TitledDelhi() ensures TitleCase("delhi") == "Delhi" {
    var r := TitleCase("delhi");
    assert |r| == 5;
  }

  lemma TitledReady() ensures TitleCase("ready") == "Ready" {
    var r := TitleCase("ready");
    assert |r| == 5;
  }

  lemma TitledTo() ensures TitleCase("to") == "To" {
    var r := TitleCase("to");
    assert |r| == 2;
  }

  lemma TitledMove() ensures TitleCase("move") == "Move" {
    var r := TitleCase("move");
    assert |r| == 4;
  }

  lemma TitledReadyToMove() ensures TitleCase("ready to move") == "Ready To Move" {
    ReadyToMoveWords();
    TitleCaseSpaced("ready", "to" + " " + "move");
    TitleCaseSpaced("to", "move");
    TitledReady();
    TitledTo();
    TitledMove();
  }

  lemma ReadyToMoveWords()
    ensures "ready to move" == "ready" + " " + ("to" + " " + "move")
    ensures "Ready To Move" == "Ready" + " " + ("To" + " " + "Move")
  {
  }

  lemma TitledUnder() ensures TitleCase("under") == "Under" {
    var r := TitleCase("under");
    assert |r| == 5;
  }

  lemma TitledConstruction() ensures TitleCase("construction") == "Construction" {
    ConstructionSplit();
    TitleCaseAppendLower("cons", "truction");
    TitledCons();
  }

  lemma TitledCons() ensures TitleCase("cons") == "Cons" {
    var r := TitleCase("cons");
    assert |r| == 4;
  }

  lemma ConstructionSplit()
    ensures "construction" == "cons" + "truction" && "Construction" == "Cons" + "truction"
  {
  }

  lemma TitledUnderConstruction() ensures TitleCase("under construction") == "Under Construction" {
    UnderConstructionWords();
    TitleCaseSpaced("under", "construction");
    TitledUnder();
    TitledConstruction();
  }

  lemma UnderConstructionWords()
    ensures "under construction" == "under" + " " + "construction"
    ensures "Under Construction" == "Under" + " " + "Construction"
  {
  }
}
