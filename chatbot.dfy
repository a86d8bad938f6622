/** The help centre chat (components/chatbot/chatbot-page.tsx): the keyword
    dispatcher `getResponse`, the chat window's state (messages, input box,
    typing indicator) with its send handler, and the quick questions.

    `getResponse` picks the first of a fixed list of rules whose keywords occur
    as substrings of the lower-cased message and whose role restriction, if
    any, is the viewer's role. Which rule fired is modelled as an `Answer`; the
    answer texts themselves are not. */
module Chatbot {
  import opened Common
  import opened Text

  /** The answer the dispatcher gives, by the rule that produced it. */
  datatype Answer =
    | Greeting
    | JoinClass | StudentAssignments | StudentAttendance | StudentRankings | StudentSchedule
    | CreateClass | LecturerAssignments | LecturerAttendance | LecturerSchedule | LecturerRankings | DeleteClass
    | ManageUsers | ManageClasses | AdminDashboard
    | Profile | Logout | Navigation
    | Fallback

  /** The role an answer is reserved for, if it is reserved. */
  function AnswerRole(a: Answer): (r: Option<string>)
  {
    match a
    case JoinClass | StudentAssignments | StudentAttendance | StudentRankings | StudentSchedule => Some("student")
    case CreateClass | LecturerAssignments | LecturerAttendance | LecturerSchedule | LecturerRankings | DeleteClass => Some("lecturer")
    case ManageUsers | ManageClasses | AdminDashboard => Some("admin")
    case _ => None
  }

  /** `message.includes(w)` for the lower-cased message. */
  function IncludedIn(m: string): string -> bool
  {
    (w: string) => Contains(m, w)
  }

  /** The greeting test: "hello", "hi" or "help" anywhere in the message. */
  predicate Greets(has: string -> bool)
  {
    has("hello") || has("hi") || has("help")
  }

  /** The if-chain of `getResponse`, over the substring test `has` of the
      lower-cased message. */
  function Respond(role: string, has: string -> bool): (r: Answer)
    ensures r == Greeting <==> Greets(has)
    ensures AnswerRole(r).Some? ==> AnswerRole(r).value == role
    ensures r in {Profile, Logout, Navigation} ==> !Greets(has) && AnswerRole(r).None?
  {
    if Greets(has) then Greeting
    else if role == "student" && has("join") && has("class") then JoinClass
    else if role == "student" && (has("assignment") || has("submit")) then StudentAssignments
    else if role == "student" && has("attendance") then StudentAttendance
    else if role == "student" && (has("ranking") || has("grade")) then StudentRankings
    else if role == "student" && has("schedule") then StudentSchedule
    else if role == "lecturer" && has("create") && has("class") then CreateClass
    else if role == "lecturer" && has("assignment") then LecturerAssignments
    else if role == "lecturer" && has("attendance") then LecturerAttendance
    else if role == "lecturer" && has("schedule") then LecturerSchedule
    else if role == "lecturer" && (has("ranking") || has("grade")) then LecturerRankings
    else if role == "lecturer" && has("delete") && has("class") then DeleteClass
    else if role == "admin" && (has("user") || has("manage")) then ManageUsers
    else if role == "admin" && has("class") then ManageClasses
    else if role == "admin" && has("dashboard") then AdminDashboard
    else if has("profile") then Profile
    else if has("logout") || has("exit") then Logout
    else if has("navigation") || has("menu") then Navigation
    else Fallback
  }

  /** `getResponse(userMessage)` for a viewer of role `role`: every test runs
      on the lower-cased message. */
  function GetResponse(role: string, userMessage: string): (r: Answer)
    ensures r == Greeting <==> Contains(ToLower(userMessage), "hello") || Contains(ToLower(userMessage), "hi")
                               || Contains(ToLower(userMessage), "help")
    ensures AnswerRole(r).Some? ==> AnswerRole(r).value == role
  {
    Respond(role, IncludedIn(ToLower(userMessage)))
  }

  // ------------------------------------------------------------------
  // The same dispatcher as a rule table
  // ------------------------------------------------------------------

  /** A keyword condition. */
  datatype Cond = Has(word: string) | Or(left: Cond, right: Cond) | And(left: Cond, right: Cond)

  predicate Holds(c: Cond, has: string -> bool)
  {
    match c
    case Has(w) => has(w)
    case Or(a, b) => Holds(a, has) || Holds(b, has)
    case And(a, b) => Holds(a, has) && Holds(b, has)
  }

  /** A rule: the role it is reserved for (if any), its condition, its answer. */
  datatype Rule = Rule(role: Option<string>, cond: Cond, answer: Answer)

  predicate Applies(rule: Rule, role: string, has: string -> bool)
  {
    (rule.role.None? || rule.role.value == role) && Holds(rule.cond, has)
  }

  /** The rules in the order the dispatcher tries them. */
  const Rules: seq<Rule> := [
    Rule(None, Or(Or(Has("hello"), Has("hi")), Has("help")), Greeting),
    Rule(Some("student"), And(Has("join"), Has("class")), JoinClass),
    Rule(Some("student"), Or(Has("assignment"), Has("submit")), StudentAssignments),
    Rule(Some("student"), Has("attendance"), StudentAttendance),
    Rule(Some("student"), Or(Has("ranking"), Has("grade")), StudentRankings),
    Rule(Some("student"), Has("schedule"), StudentSchedule),
    Rule(Some("lecturer"), And(Has("create"), Has("class")), CreateClass),
    Rule(Some("lecturer"), Has("assignment"), LecturerAssignments),
    Rule(Some("lecturer"), Has("attendance"), LecturerAttendance),
    Rule(Some("lecturer"), Has("schedule"), LecturerSchedule),
    Rule(Some("lecturer"), Or(Has("ranking"), Has("grade")), LecturerRankings),
    Rule(Some("lecturer"), And(Has("delete"), Has("class")), DeleteClass),
    Rule(Some("admin"), Or(Has("user"), Has("manage")), ManageUsers),
    Rule(Some("admin"), Has("class"), ManageClasses),
    Rule(Some("admin"), Has("dashboard"), AdminDashboard),
    Rule(None, Has("profile"), Profile),
    Rule(None, Or(Has("logout"), Has("exit")), Logout),
    Rule(None, Or(Has("navigation"), Has("menu")), Navigation)
  ]

  /** The answer of the first rule from position i on that applies, or the fallback. */
  function FirstMatchFrom(rules: seq<Rule>, role: string, has: string -> bool, i: nat): (r: Answer)
    requires i <= |rules|
    ensures r == Fallback || exists k :: i <= k < |rules| && Applies(rules[k], role, has) && rules[k].answer == r
    decreases |rules| - i
  {
    if i == |rules| then Fallback
    else if Applies(rules[i], role, has) then rules[i].answer
    else FirstMatchFrom(rules, role, has, i + 1)
  }

  /** First match wins: the answer is that of the first applicable rule, and
      the fallback exactly when no rule applies (no rule answers the fallback). */
  lemma {:induction false} FirstMatchIsFirst(rules: seq<Rule>, role: string, has: string -> bool, i: nat)
    requires i <= |rules|
    requires forall k :: 0 <= k < |rules| ==> rules[k].answer != Fallback
    ensures FirstMatchFrom(rules, role, has, i) == Fallback <==> forall k :: i <= k < |rules| ==> !Applies(rules[k], role, has)
    ensures forall k :: i <= k < |rules| && Applies(rules[k], role, has)
              && (forall j :: i <= j < k ==> !Applies(rules[j], role, has))
              ==> FirstMatchFrom(rules, role, has, i) == rules[k].answer
    decreases |rules| - i
  {
    if i < |rules| && !Applies(rules[i], role, has) {
      FirstMatchIsFirst(rules, role, has, i + 1);
    }
  }

  /** Rules 15-17: the general rules. */
  lemma GeneralRules(role: string, has: string -> bool)
    ensures FirstMatchFrom(Rules, role, has, 15)
            == if has("profile") then Profile
               else if has("logout") || has("exit") then Logout
               else if has("navigation") || has("menu") then Navigation
               else Fallback
  {
    assert Rules[15] == Rule(None, Has("profile"), Profile);
    assert Rules[16] == Rule(None, Or(Has("logout"), Has("exit")), Logout);
    assert Rules[17] == Rule(None, Or(Has("navigation"), Has("menu")), Navigation);
  }

  /** Rules 12-14: the admin rules. */
  lemma AdminRules(role: string, has: string -> bool)
    ensures FirstMatchFrom(Rules, role, has, 12)
            == if role == "admin" && (has("user") || has("manage")) then ManageUsers
               else if role == "admin" && has("class") then ManageClasses
               else if role == "admin" && has("dashboard") then AdminDashboard
               else FirstMatchFrom(Rules, role, has, 15)
  {
    assert Rules[12] == Rule(Some("admin"), Or(Has("user"), Has("manage")), ManageUsers);
    assert Rules[13] == Rule(Some("admin"), Has("class"), ManageClasses);
    assert Rules[14] == Rule(Some("admin"), Has("dashboard"), AdminDashboard);
  }

  /** Rules 9-11: the later lecturer rules. */
  lemma LaterLecturerRules(role: string, has: string -> bool)
    ensures FirstMatchFrom(Rules, role, has, 9)
            == if role == "lecturer" && has("schedule") then LecturerSchedule
               else if role == "lecturer" && (has("ranking") || has("grade")) then LecturerRankings
               else if role == "lecturer" && has("delete") && has("class") then DeleteClass
               else FirstMatchFrom(Rules, role, has, 12)
  {
    assert Rules[9] == Rule(Some("lecturer"), Has("schedule"), LecturerSchedule);
    assert Rules[10] == Rule(Some("lecturer"), Or(Has("ranking"), Has("grade")), LecturerRankings);
    assert Rules[11] == Rule(Some("lecturer"), And(Has("delete"), Has("class")), DeleteClass);
  }

  /** Rules 6-8: the first lecturer rules. */
  lemma LecturerRules(role: string, has: string -> bool)
    ensures FirstMatchFrom(Rules, role, has, 6)
            == if role == "lecturer" && has("create") && has("class") then CreateClass
               else if role == "lecturer" && has("assignment") then LecturerAssignments
               else if role == "lecturer" && has("attendance") then LecturerAttendance
               else FirstMatchFrom(Rules, role, has, 9)
  {
    assert Rules[6] == Rule(Some("lecturer"), And(Has("create"), Has("class")), CreateClass);
    assert Rules[7] == Rule(Some("lecturer"), Has("assignment"), LecturerAssignments);
    assert Rules[8] == Rule(Some("lecturer"), Has("attendance"), LecturerAttendance);
  }

  /** Rules 3-5: the later student rules. */
  lemma LaterStudentRules(role: string, has: string -> bool)
    ensures FirstMatchFrom(Rules, role, has, 3)
            == if role == "student" && has("attendance") then StudentAttendance
               else if role == "student" && (has("ranking") || has("grade")) then StudentRankings
               else if role == "student" && has("schedule") then StudentSchedule
               else FirstMatchFrom(Rules, role, has, 6)
  {
    assert Rules[3] == Rule(Some("student"), Has("attendance"), StudentAttendance);
    assert Rules[4] == Rule(Some("student"), Or(Has("ranking"), Has("grade")), StudentRankings);
    assert Rules[5] == Rule(Some("student"), Has("schedule"), StudentSchedule);
  }

  /** Rules 0-2: the greeting and the first student rules. */
  lemma StudentRules(role: string, has: string -> bool)
    ensures FirstMatchFrom(Rules, role, has, 0)
            == if Greets(has) then Greeting
               else if role == "student" && has("join") && has("class") then JoinClass
               else if role == "student" && (has("assignment") || has("submit")) then StudentAssignments
               else FirstMatchFrom(Rules, role, has, 3)
  {
    assert Rules[0] == Rule(None, Or(Or(Has("hello"), Has("hi")), Has("help")), Greeting);
    assert Rules[1] == Rule(Some("student"), And(Has("join"), Has("class")), JoinClass);
    assert Rules[2] == Rule(Some("student"), Or(Has("assignment"), Has("submit")), StudentAssignments);
  }

  /** The if-chain of `getResponse` is the rule table tried in order. */
  lemma RespondFollowsRules(role: string, has: string -> bool)
    ensures Respond(role, has) == FirstMatchFrom(Rules, role, has, 0)
  {
    StudentRules(role, has);
    LaterStudentRules(role, has);
    LecturerRules(role, has);
    LaterLecturerRules(role, has);
    AdminRules(role, has);
    GeneralRules(role, has);
  }

  /** The fallback is no rule's answer. */
  lemma NoRuleAnswersFallback()
    ensures forall k :: 0 <= k < |Rules| ==> Rules[k].answer != Fallback
  {
    forall k | 0 <= k < |Rules|
      ensures Rules[k].answer != Fallback
    {
      assert Rules[k].answer in {Greeting, JoinClass, StudentAssignments, StudentAttendance, StudentRankings,
        StudentSchedule, CreateClass, LecturerAssignments, LecturerAttendance, LecturerSchedule, LecturerRankings,
        DeleteClass, ManageUsers, ManageClasses, AdminDashboard, Profile, Logout, Navigation};
    }
  }

  /** The fallback exactly when no rule applies, for any substring test. */
  lemma NoRuleIff(role: string, has: string -> bool)
    ensures Respond(role, has) == Fallback <==> forall k :: 0 <= k < |Rules| ==> !Applies(Rules[k], role, has)
  {
    RespondFollowsRules(role, has);
    NoRuleAnswersFallback();
    FirstMatchIsFirst(Rules, role, has, 0);
  }

  /** So every message gets an answer, and the fallback only when no rule
      of the viewer's role and no general rule applies. */
  lemma FallbackIffNoRule(role: string, userMessage: string)
    ensures GetResponse(role, userMessage) == Fallback
            <==> forall k :: 0 <= k < |Rules| ==> !Applies(Rules[k], role, IncludedIn(ToLower(userMessage)))
  {
    NoRuleIff(role, IncludedIn(ToLower(userMessage)));
  }

  /** Matching ignores case: a message and its lower-cased form get the same answer. */
  lemma CaseInsensitive(role: string, userMessage: string)
    ensures GetResponse(role, userMessage) == GetResponse(role, ToLower(userMessage))
  {
    ToLowerIdempotent(userMessage);
  }

  /** A student asking to join a class gets the join answer even when the
      message also names an assignment: the earlier rule wins. */
  lemma JoinBeforeAssignment(userMessage: string)
    requires !Greets(IncludedIn(ToLower(userMessage)))
    requires Contains(ToLower(userMessage), "join") && Contains(ToLower(userMessage), "class")
    requires Contains(ToLower(userMessage), "assignment")
    ensures GetResponse("student", userMessage) == JoinClass
  {
  }

  /** The greeting test is on substrings: any message containing "this",
      "which" or "anything" is greeted, whatever else it asks. */
  lemma HiInsideWords(role: string, userMessage: string)
    requires Contains(ToLower(userMessage), "this") || Contains(ToLower(userMessage), "which")
             || Contains(ToLower(userMessage), "anything")
    ensures GetResponse(role, userMessage) == Greeting
  {
    var m := ToLower(userMessage);
    if Contains(m, "this") {
      assert "this"[1..3] == "hi";
      ContainsPiece(m, "this", 1, "hi");
    } else if Contains(m, "which") {
      assert "which"[1..3] == "hi";
      ContainsPiece(m, "which", 1, "hi");
    } else {
      assert "anything"[4..6] == "hi";
      ContainsPiece(m, "anything", 4, "hi");
    }
  }

  // ------------------------------------------------------------------
  // The chat window
  // ------------------------------------------------------------------

  /** A chat message; ids and times come from outside (`generateId`, `new Date()`). */
  datatype Message = Message(id: string, text: string, isBot: bool, timestamp: nat)

  /** The text of the reply the window actually shows. */
  function MockReply(role: string): string
  {
    "This is a mock response for role: " + role + "."
  }

  /** The welcome text, naming the role's assistant. */
  function WelcomeText(role: string): string
  {
    WelcomeHead + role + WelcomeTail
  }

  const WelcomeHead: string := "Hello! Welcome to the Learning Platform Help Center. I'm your "
  const WelcomeTail: string :=
    " assistant and I'm here to help you navigate and use all the features available to you. What would you like to know about?"

  /** The six quick questions: the first two depend on the role, the other four do not. */
  function QuickQuestions(role: string): (r: seq<string>)
    ensures |r| == 6
    ensures r[2..] == ["How do I check attendance?", "How do I view rankings?",
                       "How do I navigate the platform?", "How do I manage my profile?"]
    ensures role == "student" ==> r[..2] == ["How do I join a class?", "How do I submit assignments?"]
    ensures role == "lecturer" ==> r[..2] == ["How do I create a class?", "How do I create assignments?"]
    ensures role != "student" && role != "lecturer" ==> r[..2] == ["How do I manage users?", "How do I view all classes?"]
  {
    [if role == "student" then "How do I join a class?"
     else if role == "lecturer" then "How do I create a class?"
     else "How do I manage users?",
     if role == "student" then "How do I submit assignments?"
     else if role == "lecturer" then "How do I create assignments?"
     else "How do I view all classes?",
     "How do I check attendance?",
     "How do I view rankings?",
     "How do I navigate the platform?",
     "How do I manage my profile?"]
  }

  /** The component's state: `messages`, `inputValue`, `isTyping`. */
  class ChatWindow {
    const role: string
    var messages: seq<Message>
    var inputValue: string
    var isTyping: bool

    /** Mounting: the welcome message alone, an empty input box. */
    constructor(role: string, welcomeId: string, now: nat)
      ensures this.role == role
      ensures messages == [Message(welcomeId, WelcomeText(role), true, now)]
      ensures inputValue == "" && !isTyping
    {
      this.role := role;
      messages := [Message(welcomeId, WelcomeText(role), true, now)];
      inputValue := "";
      isTyping := false;
    }

    /** The input box's `onChange`. */
    method Type(text: string)
      modifies this`inputValue
      ensures inputValue == text
    {
      inputValue := text;
    }

    /** `handleSendMessage`: blank input (empty or white space only) is
        ignored; otherwise the input is appended as the user's message, the
        box is cleared and the typing indicator set. */
    method SendMessage(id: string, now: nat)
      modifies this`messages, this`inputValue, this`isTyping
      ensures Trim(old(inputValue)) == "" ==>
        messages == old(messages) && inputValue == old(inputValue) && isTyping == old(isTyping)
      ensures Trim(old(inputValue)) != "" ==>
        messages == old(messages) + [Message(id, old(inputValue), false, now)] && inputValue == "" && isTyping
    {
      if Trim(inputValue) == "" {
        return;
      }
      messages := messages + [Message(id, inputValue, false, now)];
      inputValue := "";
      isTyping := true;
    }

    /** The delayed part of `handleSendMessage`: the fixed mock reply is
        appended whatever was asked (the dispatcher is not consulted), and the
        typing indicator cleared. */
    method DeliverReply(id: string, now: nat)
      modifies this`messages, this`isTyping
      ensures messages == old(messages) + [Message(id, MockReply(role), true, now)]
      ensures !isTyping
    {
      messages := messages + [Message(id, MockReply(role), true, now)];
      isTyping := false;
    }

    /** `handleKeyPress`: Enter sends, any other key does nothing. */
    method KeyPress(key: string, id: string, now: nat)
      modifies this`messages, this`inputValue, this`isTyping
      ensures key != "Enter" ==> messages == old(messages) && inputValue == old(inputValue) && isTyping == old(isTyping)
      ensures key == "Enter" && Trim(old(inputValue)) != "" ==>
        messages == old(messages) + [Message(id, old(inputValue), false, now)] && inputValue == "" && isTyping
      ensures key == "Enter" && Trim(old(inputValue)) == "" ==>
        messages == old(messages) && inputValue == old(inputValue) && isTyping == old(isTyping)
    {
      if key == "Enter" {
        SendMessage(id, now);
      }
    }

    /** A quick question's `onClick` as written: `setInputValue(question)`
        followed by `handleSendMessage()`, whose `inputValue` is still the
        value of the render the handler belongs to. The question itself is
        never sent: with an empty box it is only put into the box, otherwise
        the box's old text is sent and the box ends up cleared. */
    method ClickQuickQuestionAsWritten(question: string, id: string, now: nat)
      modifies this`messages, this`inputValue, this`isTyping
      ensures Trim(old(inputValue)) == "" ==>
        messages == old(messages) && inputValue == question && isTyping == old(isTyping)
      ensures Trim(old(inputValue)) != "" ==>
        messages == old(messages) + [Message(id, old(inputValue), false, now)] && inputValue == "" && isTyping
      ensures forall k :: |old(messages)| <= k < |messages| ==> messages[k].text == old(inputValue)
    {
      var rendered := inputValue;
      inputValue := question;
      if Trim(rendered) == "" {
        return;
      }
      messages := messages + [Message(id, rendered, false, now)];
      inputValue := "";
      isTyping := true;
    }

    /** A quick question's click as intended: the question is sent as the
        user's message, whatever the box held. */
    method ClickQuickQuestion(question: string, id: string, now: nat)
      requires question in QuickQuestions(role)
      modifies this`messages, this`inputValue, this`isTyping
      ensures messages == old(messages) + [Message(id, question, false, now)]
      ensures inputValue == "" && isTyping
    {
      QuickQuestionsNotBlank(role, question);
      Type(question);
      SendMessage(id, now);
    }
  }

  /** No quick question is blank, so a click on one always sends. */
  lemma QuickQuestionsNotBlank(role: string, question: string)
    requires question in QuickQuestions(role)
    ensures Trim(question) != ""
  {
    var q := QuickQuestions(role);
    assert question[0] == 'H' by {
      assert forall i :: 0 <= i < |q| ==> q[i][0] == 'H';
    }
    assert !IsWhiteSpace(question[0]);
    TrimEmptyIffBlank(question);
  }
}
