/**
 * The projects showcase: a constant table of four projects, each card shown
 * encrypted until clicked, and the set of decrypted project ids that only
 * grows.
 */
module Projects {

  datatype Project = Project(id: int, title: string, category: string)

  /** The four projects shown, in page order. */
  const Table: seq<Project> := [
    Project(1, "DeFi Portfolio Tracker", "Web3 dApps"),
    Project(2, "Smart Contract Auditor", "Security Tools"),
    Project(3, "Decentralized Chat Protocol", "Smart Contracts"),
    Project(4, "CyberSec Dashboard", "Full-Stack Apps")
  ]

  /** The denominator printed in the summary line "Projects decrypted: n/4". */
  const SummaryTotal: nat := 4

  /** The ids of the projects in `ps`. */
  function IdSet(ps: seq<Project>): set<int>
    decreases |ps|
  {
    if ps == [] then {} else {ps[0].id} + IdSet(ps[1..])
  }

  function ProjectIds(): set<int> {
    IdSet(Table)
  }

  /** No two projects share an id (the ids are React list keys). */
  predicate IdsDistinct(ps: seq<Project>) {
    forall i, j :: 0 <= i < j < |ps| ==> ps[i].id != ps[j].id
  }

  lemma {:induction false} IdSetMembers(ps: seq<Project>)
    ensures forall i :: 0 <= i < |ps| ==> ps[i].id in IdSet(ps)
    ensures forall id :: id in IdSet(ps) ==> exists i :: 0 <= i < |ps| && ps[i].id == id
    decreases |ps|
  {
    if ps != [] {
      IdSetMembers(ps[1..]);
      forall i | 1 <= i < |ps| ensures ps[i].id in IdSet(ps) {
        assert ps[i] == ps[1..][i - 1];
      }
      forall id | id in IdSet(ps) ensures exists i :: 0 <= i < |ps| && ps[i].id == id {
        if id != ps[0].id {
          var k :| 0 <= k < |ps[1..]| && ps[1..][k].id == id;
          assert ps[k + 1].id == id;
        }
      }
    }
  }

  /** With distinct ids there are exactly as many ids as projects. */
  lemma {:induction false} IdSetSize(ps: seq<Project>)
    requires IdsDistinct(ps)
    ensures |IdSet(ps)| == |ps|
    decreases |ps|
  {
    if ps != [] {
      IdSetMembers(ps[1..]);
      forall id | id in IdSet(ps[1..]) ensures id != ps[0].id {
        var k :| 0 <= k < |ps[1..]| && ps[1..][k].id == id;
        assert ps[1..][k] == ps[k + 1];
      }
      IdSetSize(ps[1..]);
    }
  }

  /** The table's ids are distinct, and there are four of them: the summary's denominator. */
  lemma ProjectTable()
    ensures IdsDistinct(Table)
    ensures |ProjectIds()| == |Table| == SummaryTotal
  {
    IdSetSize(Table);
  }

  /** A subset has no more elements than its superset. */
  lemma SubsetSize(a: set<int>, b: set<int>)
    requires a <= b
    ensures |a| <= |b|
  {
    assert b == a + (b - a);
    assert a * (b - a) == {};
  }

  /** Any set of project ids has at most four members, so the summary never reads more than "4/4". */
  lemma DecryptedAtMostTotal(s: set<int>)
    requires s <= ProjectIds()
    ensures |s| <= SummaryTotal
  {
    ProjectTable();
    SubsetSize(s, ProjectIds());
  }

  /**
   * The accent colour of a card: total over strings, the four categories
   * get cyan, purple, green and pink, and anything else falls back to cyan.
   */
  function CardColor(category: string): (color: string)
    ensures color in {"cyber-cyan", "cyber-purple", "cyber-green", "cyber-pink"}
    ensures category !in {"Web3 dApps", "Smart Contracts", "Security Tools", "Full-Stack Apps"} ==> color == "cyber-cyan"
  {
    match category
    case "Web3 dApps" => "cyber-cyan"
    case "Smart Contracts" => "cyber-purple"
    case "Security Tools" => "cyber-green"
    case "Full-Stack Apps" => "cyber-pink"
    case _ => "cyber-cyan"
  }

  /** The four categories of the table get four different colours. */
  lemma CardColorsDistinct()
    ensures forall i, j :: 0 <= i < j < |Table| ==>
      CardColor(Table[i].category) != CardColor(Table[j].category)
  {
    assert CardColor(Table[0].category) == "cyber-cyan";
    assert CardColor(Table[1].category) == "cyber-green";
    assert CardColor(Table[2].category) == "cyber-purple";
    assert CardColor(Table[3].category) == "cyber-pink";
  }

  /** What a card shows: the encrypted overlay and the project content fade in and out opposite each other. */
  datatype Card = Card(color: string, overlayOpacity: int, contentOpacity: int, sideBar: bool, clickDecrypts: bool)

  /**
   * The card of `p` given the decrypted set: it is shown decrypted (content
   * visible, overlay hidden, side bar drawn, clicks ignored) exactly when
   * `p.id` is in the set.
   */
  function RenderCard(decrypted: set<int>, p: Project): (c: Card)
    ensures c.color == CardColor(p.category)
    ensures c.contentOpacity == 1 <==> p.id in decrypted
    ensures c.overlayOpacity + c.contentOpacity == 1 && 0 <= c.overlayOpacity <= 1
    ensures c.sideBar <==> p.id in decrypted
    ensures c.clickDecrypts <==> p.id !in decrypted
  {
    var isDecrypted := p.id in decrypted;
    Card(CardColor(p.category), if isDecrypted then 0 else 1, if isDecrypted then 1 else 0, isDecrypted, !isDecrypted)
  }

  /** The decrypted set after a click on card `index`: `handleDecrypt` runs only when the rendered card takes the click. */
  function AfterClick(decrypted: set<int>, index: nat): set<int>
    requires index < |Table|
  {
    if RenderCard(decrypted, Table[index]).clickDecrypts then decrypted + {Table[index].id} else decrypted
  }

  /** The decrypted set after clicks on the cards `cards`, in order. */
  function Clicks(decrypted: set<int>, cards: seq<nat>): set<int>
    requires forall k :: 0 <= k < |cards| ==> cards[k] < |Table|
    decreases |cards|
  {
    if cards == [] then decrypted else Clicks(AfterClick(decrypted, cards[0]), cards[1..])
  }

  /** A click is the set union with the clicked id, so clicking twice is the same as clicking once. */
  lemma AfterClickIsUnion(decrypted: set<int>, index: nat)
    requires index < |Table|
    ensures AfterClick(decrypted, index) == decrypted + {Table[index].id}
    ensures AfterClick(AfterClick(decrypted, index), index) == AfterClick(decrypted, index)
  {
  }

  /**
   * Any sequence of clicks keeps every id decrypted earlier, decrypts every
   * clicked card, adds nothing but project ids, and leaves the other cards
   * as they were.
   */
  lemma {:induction false} ClicksGrow(decrypted: set<int>, cards: seq<nat>)
    requires forall k :: 0 <= k < |cards| ==> cards[k] < |Table|
    ensures decrypted <= Clicks(decrypted, cards)
    ensures Clicks(decrypted, cards) <= decrypted + ProjectIds()
    ensures forall k :: 0 <= k < |cards| ==> Table[cards[k]].id in Clicks(decrypted, cards)
    ensures forall id ::
      (id !in decrypted && (forall k :: 0 <= k < |cards| ==> Table[cards[k]].id != id))
      ==> id !in Clicks(decrypted, cards)
    decreases |cards|
  {
    if cards != [] {
      var next := AfterClick(decrypted, cards[0]);
      AfterClickIsUnion(decrypted, cards[0]);
      IdSetMembers(Table);
      ClicksGrow(next, cards[1..]);
      forall k | 1 <= k < |cards| ensures Table[cards[k]].id in Clicks(decrypted, cards) {
        assert cards[k] == cards[1..][k - 1];
      }
    }
  }

  /** The section's one state cell. */
  class ProjectsSection {
    var decryptedProjects: set<int>
    /** How many times `handleDecrypt` has run. */
    ghost var decryptCalls: nat

    /** Only project ids are ever decrypted. */
    ghost predicate Valid()
      reads this
    {
      decryptedProjects <= ProjectIds()
    }

    constructor ()
      ensures Valid() && decryptedProjects == {} && decryptCalls == 0
    {
      decryptedProjects := {};
      decryptCalls := 0;
    }

    /** `handleDecrypt`: the new set is the old one with `projectId` added. */
    method HandleDecrypt(projectId: int)
      modifies this
      ensures decryptedProjects == old(decryptedProjects) + {projectId}
      ensures decryptCalls == old(decryptCalls) + 1
    {
      decryptedProjects := decryptedProjects + {projectId};
      decryptCalls := decryptCalls + 1;
    }

    /** A click on card `index`: `handleDecrypt` is called only when the card is still encrypted. */
    method ClickCard(index: nat)
      requires Valid() && index < |Table|
      modifies this
      ensures Valid()
      ensures decryptedProjects == AfterClick(old(decryptedProjects), index)
      ensures decryptCalls == old(decryptCalls) + if Table[index].id in old(decryptedProjects) then 0 else 1
    {
      if RenderCard(decryptedProjects, Table[index]).clickDecrypts {
        HandleDecrypt(Table[index].id);
        IdSetMembers(Table);
      }
    }

    /** The summary line: how many projects are decrypted, out of four. */
    method Summary() returns (decrypted: nat, total: nat)
      requires Valid()
      ensures decrypted == |decryptedProjects| && total == SummaryTotal
      ensures decrypted <= total
    {
      DecryptedAtMostTotal(decryptedProjects);
      decrypted, total := |decryptedProjects|, SummaryTotal;
    }
  }
}
