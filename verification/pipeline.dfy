/**
 * How the stages fit together: the statuses the parser produces, the status map of the
 * search engine and the status text of a card agree with one another.
 */
module Pipeline {
  import opened Wrappers
  import opened Text
  import opened Models
  import opened QueryParser
  import opened SearchEngine

  /** The card text of each status code is the display status that maps back to it. */
  lemma StatusDisplayRoundTrip(code: string)
    requires code in {"READY_TO_MOVE", "UNDER_CONSTRUCTION"}
    ensures StatusCode(StatusDisplay(code)) == Some(code)
  {
    if code == "READY_TO_MOVE" {
      ReadyToMoveDisplay();
    } else {
      UnderConstructionDisplay();
    }
  }

  lemma ReadyToMoveDisplay()
    ensures StatusDisplay("READY_TO_MOVE") == "Ready To Move"
  {
    var ready, to, move := "READY", "TO", "MOVE";
    ReadyToMoveSpaced();
    TitleCaseSpaced(ready, to + " " + move);
    TitleCaseSpaced(to, move);
    TitledReadyToMoveWords();
    assert TitleCase(ready + " " + (to + " " + move)) == "Ready" + " " + ("To" + " " + "Move");
    ReadyToMoveJoined();
  }

  lemma ReadyToMoveSpaced()
    ensures ReplaceChar("READY_TO_MOVE", '_', ' ') == "READY" + " " + ("TO" + " " + "MOVE")
  {
    var ready, to, move := "READY", "TO", "MOVE";
    ReadyToMoveSplit();
    ReplaceCharAt(ready, to + "_" + move, '_', ' ');
    ReplaceCharAt(to, move, '_', ' ');
    UnchangedReady();
    UnchangedTo();
    UnchangedMove();
  }

  lemma ReadyToMoveSplit()
    ensures "READY_TO_MOVE" == "READY" + "_" + ("TO" + "_" + "MOVE")
  {
  }

  lemma ReadyToMoveJoined()
    ensures "Ready" + " " + ("To" + " " + "Move") == "Ready To Move"
  {
  }

  lemma TitledReadyToMoveWords()
    ensures TitleCase("READY") == "Ready" && TitleCase("TO") == "To" && TitleCase("MOVE") == "Move"
  {
    TitleCaseWord("READY");
    TitleCaseWord("TO");
    TitleCaseWord("MOVE");
    assert "READY"[1..] == "EADY" && "TO"[1..] == "O" && "MOVE"[1..] == "OVE";
    var e, o, v := Lower("EADY"), Lower("O"), Lower("OVE");
    assert |e| == 4 && |o| == 1 && |v| == 3;
  }

  lemma UnderConstructionDisplay()
    ensures StatusDisplay("UNDER_CONSTRUCTION") == "Under Construction"
  {
    var under, construction := "UNDER", "CONSTRUCTION";
    UnderConstructionSpaced();
    TitleCaseSpaced(under, construction);
    TitledUnderUpper();
    TitledConstructionUpper();
    assert TitleCase(under + " " + construction) == "Under" + " " + "Construction";
    UnderConstructionJoined();
  }

  lemma UnderConstructionSpaced()
    ensures ReplaceChar("UNDER_CONSTRUCTION", '_', ' ') == "UNDER" + " " + "CONSTRUCTION"
  {
    var under, construction := "UNDER", "CONSTRUCTION";
    UnderConstructionSplit();
    ReplaceCharAt(under, construction, '_', ' ');
    UnchangedUnder();
    UnchangedConstruction();
  }

  lemma UnderConstructionSplit()
    ensures "UNDER_CONSTRUCTION" == "UNDER" + "_" + "CONSTRUCTION"
  {
  }

  lemma UnderConstructionJoined()
    ensures "Under" + " " + "Construction" == "Under Construction"
  {
  }

  lemma TitledUnderUpper()
    ensures TitleCase("UNDER") == "Under"
  {
    TitleCaseWord("UNDER");
    assert "UNDER"[1..] == "NDER";
    var n := Lower("NDER");
    assert |n| == 4;
  }

  lemma TitledConstructionUpper()
    ensures TitleCase("CONSTRUCTION") == "Construction"
  {
    TitleCaseWord("CONSTRUCTION");
    ConstructionTail();
    LowerAppend("ONST", "RUCTION");
    LowerWords();
    ConstructionJoined();
  }

  lemma ConstructionTail()
    ensures "CONSTRUCTION"[1..] == "ONST" + "RUCTION" && UpperChar("CONSTRUCTION"[0]) == 'C'
  {
  }

  lemma ConstructionJoined()
    ensures ['C'] + ("onst" + "ruction") == "Construction"
  {
  }

  lemma LowerWords()
    ensures Lower("ONST") == "onst" && Lower("RUCTION") == "ruction"
  {
    var a, b := Lower("ONST"), Lower("RUCTION");
    assert |a| == 4 && |b| == 7;
  }

  lemma UnchangedReady() ensures ReplaceChar("READY", '_', ' ') == "READY" {
    Unchanged("READY");
  }

  lemma UnchangedTo() ensures ReplaceChar("TO", '_', ' ') == "TO" {
    Unchanged("TO");
  }

  lemma UnchangedMove() ensures ReplaceChar("MOVE", '_', ' ') == "MOVE" {
    Unchanged("MOVE");
  }

  lemma UnchangedUnder() ensures ReplaceChar("UNDER", '_', ' ') == "UNDER" {
    Unchanged("UNDER");
  }

  lemma UnchangedConstruction() ensures ReplaceChar("CONSTRUCTION", '_', ' ') == "CONSTRUCTION" {
    Unchanged("CONSTRUCTION");
  }

  /** Text without an underscore is left as it is by the underscore replacement. */
  lemma Unchanged(w: string)
    requires forall i :: 0 <= i < |w| ==> 'A' <= w[i] <= 'Z'
    ensures ReplaceChar(w, '_', ' ') == w
  {
  }

  /**
   * Every status the parser extracts is one the status map knows, so search always applies it.
   * The filters are those of ParseCased, which agrees with parse on the status.
   */
  lemma ParsedStatusApplied(query: string)
    ensures Active(ParseCased(query), ByStatus) <==> ParseCased(query).possessionStatus.Some?
  {
    CanonicalStatusApplied(ParseCased(query));
  }

  lemma CanonicalStatusApplied(f: Filters)
    requires f.possessionStatus.None? || f.possessionStatus.value in {"Ready To Move", "Under Construction"}
    ensures Active(f, ByStatus) <==> f.possessionStatus.Some?
  {
  }

  /**
   * A row kept under an extracted possession status shows that same status on its card:
   * asking for ready-to-move homes shows only cards reading "Ready To Move".
   */
  lemma FilteredStatusShown(query: string, r: Row)
    requires ParseCased(query).possessionStatus.Some? && Satisfies(ParseCased(query), r)
    ensures StatusDisplay(r.status) == ParseCased(query).possessionStatus.value
  {
    StatusShown(ParseCased(query), r);
  }

  /**
   * Searching for "near Baner" keeps only rows whose address mentions Baner once the locality
   * is read from the query as typed; with parse's filters the locality step never runs.
   */
  lemma NearBanerSearch(r: Row)
    ensures !Active(Parse("near Baner"), ByLocality)
    ensures Satisfies(ParseCased("near Baner"), r) ==>
      r.fullAddress.Some? && ContainsIgnoreCase(r.fullAddress.value, "Baner")
  {
    PhraseStepsIdle("near Baner");
    LocalityNearBaner();
    LocalityApplied(ParseCased("near Baner"), "Baner", r);
  }

  /** With parse's filters the locality and project steps of search never narrow the rows. */
  lemma PhraseStepsIdle(query: string)
    ensures !Active(Parse(query), ByLocality) && !Active(Parse(query), ByProject)
  {
    PhraseStepsIdleFor(Parse(query));
  }

  lemma PhraseStepsIdleFor(f: Filters)
    requires f.locality.None? && f.projectName.None?
    ensures !Active(f, ByLocality) && !Active(f, ByProject)
  {
  }

  /** A row kept under a locality filter has an address that mentions the locality. */
  lemma LocalityApplied(f: Filters, locality: string, r: Row)
    requires f.locality == Some(locality) && locality != ""
    ensures Satisfies(f, r) ==> r.fullAddress.Some? && ContainsIgnoreCase(r.fullAddress.value, locality)
  {
    SatisfiesMeans(f, r);
  }

  lemma {:induction false} StatusShown(f: Filters, r: Row)
    requires f.possessionStatus.Some? && f.possessionStatus.value in {"Ready To Move", "Under Construction"}
    requires Satisfies(f, r)
    ensures StatusDisplay(r.status) == f.possessionStatus.value
  {
    SatisfiesMeans(f, r);
    if f.possessionStatus.value == "Ready To Move" {
      ReadyToMoveDisplay();
    } else {
      UnderConstructionDisplay();
    }
  }
}
