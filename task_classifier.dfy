/**
 * `scripts/task_classifier.py`: naming the task scenario of a dialogue by
 * counting which of each topic's keywords occur in its lower-cased text.
 */
module TaskClassifier {
  import opened Wrappers
  import opened Text

  /** `TASK_TOPICS`, in the dictionary's insertion order. */
  const TaskTopics: seq<(string, seq<string>)> := [
    ("Ordering Coffee at a Café",
      ["coffee", "café", "cafe", "latte", "espresso", "cappuccino", "matcha", "order", "drink", "barista", "menu"]),
    ("Booking a Restaurant Table",
      ["restaurant", "table", "reservation", "book", "dinner", "reserve", "seating", "party", "guests"]),
    ("Returning or Exchanging Clothes",
      ["return", "exchange", "clothes", "clothing", "refund", "store", "policy", "receipt"]),
    ("Visiting a Medical Clinic",
      ["medical", "clinic", "doctor", "appointment", "toothache", "dentist", "health", "symptom", "pain"]),
    ("Visiting a Bank",
      ["bank", "banking", "account", "deposit", "withdraw", "balance", "transaction", "card"]),
    ("Enquiring About a Rental Property",
      ["rental", "property", "apartment", "house", "rent", "inspection", "lease", "landlord"]),
    ("Reporting an Internet Outage",
      ["internet", "outage", "connection", "wifi", "router", "network", "online", "signal"]),
    ("Reporting a Lost Item",
      ["lost", "item", "police", "report", "missing", "found", "belongings"]),
    ("Requesting Maintenance or Repairs",
      ["maintenance", "repair", "fix", "broken", "issue", "problem", "service", "technician"]),
    ("Seeking Technical Support",
      ["technical", "support", "device", "help", "troubleshoot", "error", "software", "hardware"]),
    ("Discussing Study or Career Plans",
      ["study", "career", "advisor", "university", "education", "overseas", "abroad", "program", "course"]),
    ("Participating in Group Decisions",
      ["group", "decision", "negotiate", "discuss", "meeting", "team", "agree", "consensus"]),
    ("Responding to Feedback",
      ["feedback", "review", "performance", "evaluation", "improve", "suggestions"])
  ]

  /** `" ".join(turn texts).lower()`. */
  function AllText(texts: seq<string>): string {
    Lower(Join(texts, " "))
  }

  /**
   * `sum(1 for keyword in keywords if keyword in all_text)`: how many of the
   * keywords occur as substrings, each counted once however often it occurs.
   */
  function Score(keywords: seq<string>, text: string): (r: nat)
    ensures r <= |keywords|
    ensures r == 0 <==> forall k :: 0 <= k < |keywords| ==> !Contains(text, keywords[k])
    decreases |keywords|
  {
    if |keywords| == 0 then 0
    else Score(keywords[..|keywords| - 1], text) + (if Contains(text, keywords[|keywords| - 1]) then 1 else 0)
  }

  function Scores(topics: seq<(string, seq<string>)>, text: string): (r: seq<nat>)
    ensures |r| == |topics| && forall i :: 0 <= i < |topics| ==> r[i] == Score(topics[i].1, text)
  {
    seq(|topics|, i requires 0 <= i < |topics| => Score(topics[i].1, text))
  }

  /** What `max(..., key=...)` picks: the first position holding the greatest value. */
  function FirstMax(s: seq<nat>): (m: nat)
    requires |s| > 0
    ensures m < |s|
    ensures forall j :: 0 <= j < |s| ==> s[j] <= s[m]
    ensures forall j :: 0 <= j < m ==> s[j] < s[m]
    decreases |s|
  {
    if |s| == 1 then 0
    else
      var m := FirstMax(s[..|s| - 1]);
      if s[|s| - 1] > s[m] then |s| - 1 else m
  }

  /** The first maximum is the only position that is maximal and beats everything before it. */
  lemma FirstMaxUnique(s: seq<nat>, m: nat)
    requires m < |s|
    requires forall j :: 0 <= j < |s| ==> s[j] <= s[m]
    requires forall j :: 0 <= j < m ==> s[j] < s[m]
    ensures FirstMax(s) == m
  {
  }

  /**
   * `classify_task_topic` as a definition: the first topic of greatest score,
   * or nothing when every score is zero.
   */
  function Classify(topics: seq<(string, seq<string>)>, text: string): Option<string> {
    if |topics| == 0 then None
    else
      var m := FirstMax(Scores(topics, text));
      if Scores(topics, text)[m] == 0 then None else Some(topics[m].0)
  }

  /**
   * No topic is named exactly when no keyword of any topic occurs; a named
   * topic has a positive score, none scores higher, and every topic listed
   * before it scores strictly lower.
   */
  lemma ClassifySpec(topics: seq<(string, seq<string>)>, text: string)
    ensures Classify(topics, text).None? <==>
      forall i, k :: 0 <= i < |topics| && 0 <= k < |topics[i].1| ==> !Contains(text, topics[i].1[k])
    ensures Classify(topics, text).Some? ==>
      exists i :: 0 <= i < |topics| && topics[i].0 == Classify(topics, text).value &&
        Score(topics[i].1, text) > 0 &&
        (forall j :: 0 <= j < |topics| ==> Score(topics[j].1, text) <= Score(topics[i].1, text)) &&
        (forall j :: 0 <= j < i ==> Score(topics[j].1, text) < Score(topics[i].1, text))
  {
    if |topics| > 0 {
      var s := Scores(topics, text);
      var m := FirstMax(s);
      if s[m] == 0 {
        forall i, k | 0 <= i < |topics| && 0 <= k < |topics[i].1| ensures !Contains(text, topics[i].1[k]) {
          assert s[i] <= s[m];
        }
      } else {
        assert Score(topics[m].1, text) > 0;
      }
    }
  }

  /** The entries of `topic_scores` came from increasing table positions with positive scores. */
  predicate Filtered(scores: seq<nat>, entries: seq<(string, nat)>, origin: seq<nat>, topics: seq<(string, seq<string>)>, upTo: nat)
    requires |scores| == |topics| && upTo <= |topics|
  {
    |entries| == |origin|
    && (forall k :: 0 <= k < |origin| ==>
          origin[k] < upTo && scores[origin[k]] > 0 && entries[k] == (topics[origin[k]].0, scores[origin[k]]))
    && (forall k, l :: 0 <= k < l < |origin| ==> origin[k] < origin[l])
    && (forall j :: 0 <= j < upTo && scores[j] > 0 ==> exists k :: 0 <= k < |origin| && origin[k] == j)
  }

  /** The first maximum among the positive entries is the first maximum over all topics. */
  lemma FilteredMax(scores: seq<nat>, entries: seq<(string, nat)>, origin: seq<nat>, topics: seq<(string, seq<string>)>)
    requires |scores| == |topics| && |entries| > 0
    requires Filtered(scores, entries, origin, topics, |topics|)
    ensures var b := FirstMax(seq(|entries|, k requires 0 <= k < |entries| => entries[k].1));
      FirstMax(scores) == origin[b] && scores[origin[b]] > 0
  {
    var vals := seq(|entries|, k requires 0 <= k < |entries| => entries[k].1);
    var b := FirstMax(vals);
    var m := origin[b];
    forall j | 0 <= j < |scores| ensures scores[j] <= scores[m] && (j < m ==> scores[j] < scores[m]) {
      if scores[j] > 0 {
        var k :| 0 <= k < |origin| && origin[k] == j;
        assert vals[k] == scores[j];
        if j < m {
          assert k < b;
        }
      }
    }
    FirstMaxUnique(scores, m);
  }

  /** One more table position scanned: its entry is appended exactly when its score is positive. */
  lemma FilteredStep(scores: seq<nat>, entries: seq<(string, nat)>, origin: seq<nat>, topics: seq<(string, seq<string>)>, i: nat)
    requires |scores| == |topics| && i < |topics|
    requires Filtered(scores, entries, origin, topics, i)
    ensures scores[i] > 0 ==> Filtered(scores, entries + [(topics[i].0, scores[i])], origin + [i], topics, i + 1)
    ensures scores[i] == 0 ==> Filtered(scores, entries, origin, topics, i + 1)
  {
    if scores[i] > 0 {
      var o := origin + [i];
      forall j | 0 <= j < i + 1 && scores[j] > 0 ensures exists k :: 0 <= k < |o| && o[k] == j {
        if j == i {
          assert o[|origin|] == j;
        } else {
          var k :| 0 <= k < |origin| && origin[k] == j;
          assert o[k] == j;
        }
      }
    }
  }

  /** The scan keeps only positive scores, and keeps none exactly when every score is zero. */
  lemma FilteredEmpty(scores: seq<nat>, entries: seq<(string, nat)>, origin: seq<nat>, topics: seq<(string, seq<string>)>)
    requires |scores| == |topics|
    requires Filtered(scores, entries, origin, topics, |topics|)
    ensures forall k :: 0 <= k < |entries| ==> entries[k].1 > 0
    ensures |entries| == 0 <==> forall j :: 0 <= j < |scores| ==> scores[j] == 0
  {
    if |entries| == 0 {
      forall j | 0 <= j < |scores| ensures scores[j] == 0 {
        assert |origin| == 0;
      }
    } else {
      assert scores[origin[0]] > 0;
    }
  }

  /** The scoring loop: builds `topic_scores` in table order. */
  method ScoreTopics(topics: seq<(string, seq<string>)>, allText: string)
    returns (topicScores: seq<(string, nat)>, ghost origin: seq<nat>)
    ensures Filtered(Scores(topics, allText), topicScores, origin, topics, |topics|)
    ensures forall k :: 0 <= k < |topicScores| ==> topicScores[k].1 > 0
    ensures |topicScores| == 0 <==> forall j :: 0 <= j < |topics| ==> Scores(topics, allText)[j] == 0
  {
    ghost var scores := Scores(topics, allText);
    topicScores := [];
    origin := [];
    for i := 0 to |topics|
      invariant Filtered(scores, topicScores, origin, topics, i)
    {
      topicScores, origin := ScoreOne(topics, allText, i, topicScores, origin);
    }
    FilteredEmpty(scores, topicScores, origin, topics);
  }

  /** One pass of the scoring loop: the topic at position `i` is kept when it scores. */
  method ScoreOne(topics: seq<(string, seq<string>)>, allText: string, i: nat,
                  entries: seq<(string, nat)>, ghost origin: seq<nat>)
    returns (entries': seq<(string, nat)>, ghost origin': seq<nat>)
    requires i < |topics| && Filtered(Scores(topics, allText), entries, origin, topics, i)
    ensures Filtered(Scores(topics, allText), entries', origin', topics, i + 1)
  {
    var score := Score(topics[i].1, allText);
    FilteredStep(Scores(topics, allText), entries, origin, topics, i);
    if score > 0 {
      entries', origin' := entries + [(topics[i].0, score)], origin + [i];
    } else {
      entries', origin' := entries, origin;
    }
  }

  /** `classify_task_topic` over a topic table: the scoring loop, then `max`. */
  method ClassifyTopic(topics: seq<(string, seq<string>)>, texts: seq<string>) returns (topic: Option<string>)
    ensures topic == Classify(topics, AllText(texts))
  {
    var allText := AllText(texts);
    var topicScores, origin := ScoreTopics(topics, allText);
    if |topicScores| == 0 {
      if |topics| > 0 {
        var scores := Scores(topics, allText);
        assert scores[FirstMax(scores)] == 0;
      }
      return None;
    }
    var best := FirstMax(seq(|topicScores|, k requires 0 <= k < |topicScores| => topicScores[k].1));
    FilteredMax(Scores(topics, allText), topicScores, origin, topics);
    topic := Some(topicScores[best].0);
  }

  method ClassifyTaskTopic(texts: seq<string>) returns (topic: Option<string>)
    ensures topic == Classify(TaskTopics, AllText(texts))
  {
    topic := ClassifyTopic(TaskTopics, texts);
  }

  /** The parts of a dialogue dictionary the classifier reads and writes. */
  datatype TopicRecord = TopicRecord(texts: seq<string>, taskTopic: Option<string>)

  /** `add_task_topic_to_dialogue` on a copy: the topic is set when one is found and left as it was otherwise. */
  function WithTopic(topics: seq<(string, seq<string>)>, d: TopicRecord): TopicRecord {
    match Classify(topics, AllText(d.texts))
    case Some(t) => d.(taskTopic := Some(t))
    case None => d
  }

  /**
   * Adding the topic keeps the turns, sets a topic whenever some keyword
   * occurs, leaves the record as it was when none occurs, and adding it
   * again changes nothing.
   */
  lemma WithTopicSpec(topics: seq<(string, seq<string>)>, d: TopicRecord)
    ensures WithTopic(topics, d).texts == d.texts
    ensures (exists i, k :: 0 <= i < |topics| && 0 <= k < |topics[i].1| && Contains(AllText(d.texts), topics[i].1[k])) ==>
      WithTopic(topics, d).taskTopic == Classify(topics, AllText(d.texts)) && WithTopic(topics, d).taskTopic.Some?
    ensures (forall i, k :: 0 <= i < |topics| && 0 <= k < |topics[i].1| ==> !Contains(AllText(d.texts), topics[i].1[k])) ==>
      WithTopic(topics, d) == d
    ensures WithTopic(topics, WithTopic(topics, d)) == WithTopic(topics, d)
  {
    ClassifySpec(topics, AllText(d.texts));
  }

  method AddTaskTopicToDialogue(d: TopicRecord) returns (r: TopicRecord)
    ensures r == WithTopic(TaskTopics, d)
  {
    r := d;
    var topic := ClassifyTaskTopic(d.texts);
    if topic.Some? {
      r := r.(taskTopic := topic);
    }
  }
}
