/** The question bank: five topics of seven multiple-choice questions, each
    with four options, the correct option and a hint. */
module QuestionBank {

  datatype Question = Question(question: string, options: seq<string>, correctAnswer: string, hint: string)

  datatype Topic = Topic(topic: string, questions: seq<Question>)

  /** Four different options, one of which is the correct answer, and a hint. */
  predicate WellFormedQuestion(q: Question)
  {
    && |q.options| == 4
    && q.correctAnswer in q.options
    && (forall i, j :: 0 <= i < j < |q.options| ==> q.options[i] != q.options[j])
    && q.hint != ""
  }

  predicate WellFormedTopic(t: Topic)
  {
    |t.questions| == 7 && forall i :: 0 <= i < |t.questions| ==> WellFormedQuestion(t.questions[i])
  }

  const DataStructuresAndAlgorithmsName: string := "Data Structures & Algorithms"

  const DataStructuresAndAlgorithms: Topic := Topic(DataStructuresAndAlgorithmsName, [
    Question(
      "What is the time complexity of binary search?",
      ["O(1)", "O(log n)", "O(n)", "O(n log n)"],
      "O(log n)",
      "Think about how the search space is divided in each step."),
    Question(
      "Which data structure operates on a LIFO principle?",
      ["Queue", "Stack", "Linked List", "Tree"],
      "Stack",
      "LIFO stands for Last In, First Out."),
    Question(
      "What is the worst-case time complexity of quicksort?",
      ["O(n)", "O(n log n)", "O(n\U{00B2})", "O(2\U{207F})"],
      "O(n\U{00B2})",
      "Consider what happens when the pivot is always the smallest or largest element."),
    Question(
      "Which of these is not a sorting algorithm?",
      ["Bubble Sort", "Merge Sort", "Binary Sort", "Insertion Sort"],
      "Binary Sort",
      "Binary Search is an algorithm, but Binary Sort is not a standard sorting algorithm."),
    Question(
      "What data structure would you use for implementing a priority queue?",
      ["Array", "Linked List", "Heap", "Hash Table"],
      "Heap",
      "This data structure allows efficient access to the element with highest/lowest priority."),
    Question(
      "What is the space complexity of depth-first search (DFS)?",
      ["O(1)", "O(log n)", "O(n)", "O(n\U{00B2})"],
      "O(n)",
      "Think about what needs to be stored during the traversal in the worst case."),
    Question(
      "Which algorithm is used to find the shortest path in a weighted graph?",
      ["Breadth-First Search", "Depth-First Search", "Dijkstra's Algorithm", "Binary Search"],
      "Dijkstra's Algorithm",
      "This algorithm uses a priority queue to always explore the path with the smallest weight first.")
  ])

  const ObjectOrientedProgrammingName: string := "Object-Oriented Programming"

  const ObjectOrientedProgramming: Topic := Topic(ObjectOrientedProgrammingName, [
    Question(
      "Which of the following is not a principle of OOP?",
      ["Encapsulation", "Inheritance", "Polymorphism", "Fragmentation"],
      "Fragmentation",
      "There are four main principles of OOP: Encapsulation, Inheritance, Polymorphism, and Abstraction."),
    Question(
      "What is the concept of hiding the internal details and showing only the functionality called?",
      ["Abstraction", "Encapsulation", "Polymorphism", "Inheritance"],
      "Abstraction",
      "This principle focuses on showing only essential features while hiding implementation details."),
    Question(
      "Which OOP concept allows a class to use properties and methods of another class?",
      ["Encapsulation", "Abstraction", "Inheritance", "Polymorphism"],
      "Inheritance",
      "This concept enables code reuse by allowing a class to inherit from another class."),
    Question(
      "What is it called when a derived class method overrides a base class method?",
      ["Overloading", "Overriding", "Hiding", "Extending"],
      "Overriding",
      "This allows a subclass to provide a specific implementation of a method already defined in its superclass."),
    Question(
      "Which access modifier makes a class member accessible only within the same class?",
      ["Public", "Protected", "Private", "Default"],
      "Private",
      "This modifier provides the highest level of encapsulation."),
    Question(
      "What is a constructor in OOP?",
      ["A method that destroys objects", "A special method that is called when an object is created", "A method that copies objects", "A method that converts objects to strings"],
      "A special method that is called when an object is created",
      "This method initializes the object's state when it's instantiated."),
    Question(
      "What is the concept of treating an object as an instance of its parent class called?",
      ["Inheritance", "Polymorphism", "Encapsulation", "Abstraction"],
      "Polymorphism",
      "This allows objects to be treated as instances of their parent class rather than their actual class.")
  ])

  const ComputerGraphicsName: string := "Computer Graphics"

  const ComputerGraphics: Topic := Topic(ComputerGraphicsName, [
    Question(
      "Which algorithm is used for line drawing in computer graphics?",
      ["Dijkstra's Algorithm", "Bresenham's Algorithm", "A* Algorithm", "Floyd-Warshall Algorithm"],
      "Bresenham's Algorithm",
      "This algorithm determines which pixels should be plotted to form a straight line."),
    Question(
      "What is the process of removing hidden surfaces called?",
      ["Rendering", "Shading", "Culling", "Z-buffering"],
      "Z-buffering",
      "This technique determines which elements are visible in a 3D scene."),
    Question(
      "Which color model is based on human perception of color?",
      ["RGB", "CMYK", "HSL", "YUV"],
      "HSL",
      "This model represents colors in terms of Hue, Saturation, and Lightness."),
    Question(
      "What technique is used to smooth jagged edges in computer graphics?",
      ["Dithering", "Anti-aliasing", "Texture mapping", "Ray tracing"],
      "Anti-aliasing",
      "This technique reduces the jagged appearance of diagonal lines and curves."),
    Question(
      "Which transformation preserves parallel lines but not angles?",
      ["Translation", "Rotation", "Scaling", "Shearing"],
      "Shearing",
      "This transformation slants the shape of an object."),
    Question(
      "What is the technique of mapping a 2D texture onto a 3D object called?",
      ["Bump mapping", "Texture mapping", "Displacement mapping", "Normal mapping"],
      "Texture mapping",
      "This process applies an image to the surface of a 3D model."),
    Question(
      "Which rendering technique simulates the physical behavior of light?",
      ["Flat shading", "Gouraud shading", "Phong shading", "Ray tracing"],
      "Ray tracing",
      "This technique traces the path of light through pixels in an image plane and simulates the effects of its encounters with virtual objects.")
  ])

  const WebDevelopmentName: string := "Web Development"

  const WebDevelopment: Topic := Topic(WebDevelopmentName, [
    Question(
      "Which of the following is not a JavaScript framework or library?",
      ["React", "Angular", "Vue", "Django"],
      "Django",
      "Three of these are JavaScript technologies, but one is for a different language."),
    Question(
      "What does CSS stand for?",
      ["Computer Style Sheets", "Creative Style Sheets", "Cascading Style Sheets", "Colorful Style Sheets"],
      "Cascading Style Sheets",
      "The 'cascading' part refers to how styles can override each other based on specificity."),
    Question(
      "Which HTTP method is used to update a resource?",
      ["GET", "POST", "PUT", "DELETE"],
      "PUT",
      "This method replaces all current representations of the target resource with the request payload."),
    Question(
      "What is the purpose of localStorage in web browsers?",
      ["To store data with no expiration date", "To store session data", "To cache HTTP requests", "To store cookies"],
      "To store data with no expiration date",
      "This storage mechanism persists even after the browser is closed."),
    Question(
      "Which technology is primarily used for creating responsive web designs?",
      ["HTML5", "JavaScript", "CSS3", "WebAssembly"],
      "CSS3",
      "This technology includes media queries that allow content to adapt to different screen sizes."),
    Question(
      "What is the purpose of a CDN in web development?",
      ["To create dynamic content", "To deliver content from servers closest to the user", "To compress HTML files", "To convert JavaScript to TypeScript"],
      "To deliver content from servers closest to the user",
      "CDNs help reduce latency by distributing content across multiple geographic locations."),
    Question(
      "Which of the following is a client-side storage technology?",
      ["MySQL", "MongoDB", "IndexedDB", "PostgreSQL"],
      "IndexedDB",
      "This is a low-level API for client-side storage of significant amounts of structured data.")
  ])

  const MachineLearningName: string := "Machine Learning"

  const MachineLearning: Topic := Topic(MachineLearningName, [
    Question(
      "Which algorithm is used for classification problems?",
      ["Linear Regression", "K-Means", "Random Forest", "Principal Component Analysis"],
      "Random Forest",
      "This ensemble learning method constructs multiple decision trees during training."),
    Question(
      "What is the purpose of regularization in machine learning?",
      ["To increase model complexity", "To prevent overfitting", "To speed up training", "To visualize data"],
      "To prevent overfitting",
      "This technique adds a penalty term to the loss function to discourage complex models."),
    Question(
      "Which of the following is an unsupervised learning algorithm?",
      ["Logistic Regression", "Support Vector Machines", "K-Means Clustering", "Decision Trees"],
      "K-Means Clustering",
      "This algorithm groups similar data points together without labeled training data."),
    Question(
      "What does CNN stand for in deep learning?",
      ["Complex Neural Network", "Convolutional Neural Network", "Cascading Neural Network", "Computational Neural Network"],
      "Convolutional Neural Network",
      "This type of neural network is commonly used for image processing tasks."),
    Question(
      "Which metric is used to evaluate regression models?",
      ["Accuracy", "Precision", "Recall", "Mean Squared Error"],
      "Mean Squared Error",
      "This metric measures the average squared difference between predicted and actual values."),
    Question(
      "What is the purpose of the activation function in neural networks?",
      ["To initialize weights", "To introduce non-linearity", "To normalize input data", "To reduce dimensionality"],
      "To introduce non-linearity",
      "Without this, a neural network would behave like a linear regression model regardless of depth."),
    Question(
      "Which algorithm is used for dimensionality reduction?",
      ["Random Forest", "Gradient Boosting", "Principal Component Analysis", "Naive Bayes"],
      "Principal Component Analysis",
      "This technique transforms the data into a new coordinate system to maximize variance.")
  ])

  /** `quizData`. */
  const QuizData: seq<Topic> := [
    DataStructuresAndAlgorithms, ObjectOrientedProgramming, ComputerGraphics, WebDevelopment, MachineLearning
  ]

  lemma DataStructuresAndAlgorithmsQuestions0To2()
    ensures |DataStructuresAndAlgorithms.questions| == 7
    ensures forall k :: 0 <= k < 3 ==> WellFormedQuestion(DataStructuresAndAlgorithms.questions[k])
  {
  }

  lemma DataStructuresAndAlgorithmsQuestions3To4()
    ensures forall k :: 3 <= k < 5 ==> WellFormedQuestion(DataStructuresAndAlgorithms.questions[k])
  {
  }

  lemma DataStructuresAndAlgorithmsQuestions5To6()
    ensures forall k :: 5 <= k < 7 ==> WellFormedQuestion(DataStructuresAndAlgorithms.questions[k])
  {
  }

  lemma DataStructuresAndAlgorithmsWellFormed()
    ensures WellFormedTopic(DataStructuresAndAlgorithms)
  {
    DataStructuresAndAlgorithmsQuestions0To2();
    DataStructuresAndAlgorithmsQuestions3To4();
    DataStructuresAndAlgorithmsQuestions5To6();
  }

  lemma ObjectOrientedProgrammingQuestions0To2()
    ensures |ObjectOrientedProgramming.questions| == 7
    ensures forall k :: 0 <= k < 3 ==> WellFormedQuestion(ObjectOrientedProgramming.questions[k])
  {
  }

  lemma ObjectOrientedProgrammingQuestions3To4()
    ensures forall k :: 3 <= k < 5 ==> WellFormedQuestion(ObjectOrientedProgramming.questions[k])
  {
  }

  lemma ObjectOrientedProgrammingQuestions5To6()
    ensures forall k :: 5 <= k < 7 ==> WellFormedQuestion(ObjectOrientedProgramming.questions[k])
  {
  }

  lemma ObjectOrientedProgrammingWellFormed()
    ensures WellFormedTopic(ObjectOrientedProgramming)
  {
    ObjectOrientedProgrammingQuestions0To2();
    ObjectOrientedProgrammingQuestions3To4();
    ObjectOrientedProgrammingQuestions5To6();
  }

  lemma ComputerGraphicsQuestions0To2()
    ensures |ComputerGraphics.questions| == 7
    ensures forall k :: 0 <= k < 3 ==> WellFormedQuestion(ComputerGraphics.questions[k])
  {
  }

  lemma ComputerGraphicsQuestions3To4()
    ensures forall k :: 3 <= k < 5 ==> WellFormedQuestion(ComputerGraphics.questions[k])
  {
  }

  lemma ComputerGraphicsQuestions5To6()
    ensures forall k :: 5 <= k < 7 ==> WellFormedQuestion(ComputerGraphics.questions[k])
  {
  }

  lemma ComputerGraphicsWellFormed()
    ensures WellFormedTopic(ComputerGraphics)
  {
    ComputerGraphicsQuestions0To2();
    ComputerGraphicsQuestions3To4();
    ComputerGraphicsQuestions5To6();
  }

  lemma WebDevelopmentQuestions0To2()
    ensures |WebDevelopment.questions| == 7
    ensures forall k :: 0 <= k < 3 ==> WellFormedQuestion(WebDevelopment.questions[k])
  {
  }

  lemma WebDevelopmentQuestions3To4()
    ensures forall k :: 3 <= k < 5 ==> WellFormedQuestion(WebDevelopment.questions[k])
  {
  }

  lemma WebDevelopmentQuestions5To6()
    ensures forall k :: 5 <= k < 7 ==> WellFormedQuestion(WebDevelopment.questions[k])
  {
  }

  lemma WebDevelopmentWellFormed()
    ensures WellFormedTopic(WebDevelopment)
  {
    WebDevelopmentQuestions0To2();
    WebDevelopmentQuestions3To4();
    WebDevelopmentQuestions5To6();
  }

  lemma MachineLearningQuestions0To2()
    ensures |MachineLearning.questions| == 7
    ensures forall k :: 0 <= k < 3 ==> WellFormedQuestion(MachineLearning.questions[k])
  {
  }

  lemma MachineLearningQuestions3To4()
    ensures forall k :: 3 <= k < 5 ==> WellFormedQuestion(MachineLearning.questions[k])
  {
  }

  lemma MachineLearningQuestions5To6()
    ensures forall k :: 5 <= k < 7 ==> WellFormedQuestion(MachineLearning.questions[k])
  {
  }

  lemma MachineLearningWellFormed()
    ensures WellFormedTopic(MachineLearning)
  {
    MachineLearningQuestions0To2();
    MachineLearningQuestions3To4();
    MachineLearningQuestions5To6();
  }

  /** `quizData` has five topics, each well formed. */
  lemma QuizDataWellFormed()
    ensures |QuizData| == 5
    ensures forall i :: 0 <= i < |QuizData| ==> WellFormedTopic(QuizData[i])
  {
    DataStructuresAndAlgorithmsWellFormed();
    ObjectOrientedProgrammingWellFormed();
    ComputerGraphicsWellFormed();
    WebDevelopmentWellFormed();
    MachineLearningWellFormed();
  }

  /** The five topics of `quizData` carry pairwise distinct names, so a
      topic name picked on the home page identifies one topic. */
  lemma QuizDataTopicsDistinct()
    ensures |QuizData| == 5
    ensures forall i, j :: 0 <= i < j < |QuizData| ==> QuizData[i].topic != QuizData[j].topic
  {
  }

  /** In a well-formed question exactly one option is the correct answer. */
  lemma OneCorrectOption(q: Question)
    requires WellFormedQuestion(q)
    ensures exists k :: 0 <= k < 4 && q.options[k] == q.correctAnswer
    ensures forall k, l :: 0 <= k < 4 && 0 <= l < 4 && q.options[k] == q.correctAnswer && q.options[l] == q.correctAnswer ==> k == l
  {
    var k :| 0 <= k < |q.options| && q.options[k] == q.correctAnswer;
  }
}
