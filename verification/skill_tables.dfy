/**
 * skill_matcher.py `SKILL_SYNONYMS`, entry for entry and in source order,
 * grouped by the source's own section comments. Each entry is a function of
 * its own, named after its base skill.
 */
module MatcherSynonyms {
  import opened Canon

  /**
   * The whole dict (67 entries): the source's commented groups, in order.
   * `FromX()` is the part of the dict from group `X` to the end.
   */
  function Synonyms(): Table
  {
    Languages() + FromDataScience()
  }

  function FromDataScience(): Table { DataScience() + FromDatabases() }
  function FromDatabases(): Table { Databases() + FromCloudDevOps() }
  function FromCloudDevOps(): Table { CloudDevOps() + FromWebDevelopment() }
  function FromWebDevelopment(): Table { WebDevelopment() + FromMobileDevelopment() }
  function FromMobileDevelopment(): Table { MobileDevelopment() + FromSecurity() }
  function FromSecurity(): Table { Security() + FromUiUx() }
  function FromUiUx(): Table { UiUx() + FromSoftSkills() }
  function FromSoftSkills(): Table { SoftSkills() }

  /** Programming Languages. */
  function Languages(): Table
  {
    [Python(), Java(), Javascript(), Typescript(), CPlusPlus(), CSharp(), Php(), R(), Kotlin(), Swift()]
  }

  function Python(): Entry { Entry("python", ["python", "py", "python3", "python programming"]) }
  function Java(): Entry { Entry("java", ["java", "java programming", "jdk", "j2ee"]) }
  function Javascript(): Entry { Entry("javascript", ["javascript", "js", "ecmascript", "nodejs", "node.js"]) }
  function Typescript(): Entry { Entry("typescript", ["typescript", "ts"]) }
  function CPlusPlus(): Entry { Entry("c++", ["c++", "cpp", "c plus plus"]) }
  function CSharp(): Entry { Entry("c#", ["c#", "c sharp", ".net c#"]) }
  function Php(): Entry { Entry("php", ["php", "php7", "laravel php"]) }
  function R(): Entry { Entry("r", ["r", "r programming", "r-lang"]) }
  function Kotlin(): Entry { Entry("kotlin", ["kotlin", "android kotlin"]) }
  function Swift(): Entry { Entry("swift", ["swift", "ios swift"]) }

  /** Data Science & ML. */
  function DataScience(): Table
  {
    [MachineLearning(), DeepLearning(), Nlp(), DataAnalysis(), DataVisualization(), Pandas(), Numpy(), ScikitLearn(), Tensorflow(), Keras(), Pytorch(), Tableau(), PowerBi(), Eda()]
  }

  function MachineLearning(): Entry { Entry("machine learning", ["machine learning", "ml", "ai", "ml modeling", "predictive modeling"]) }
  function DeepLearning(): Entry { Entry("deep learning", ["deep learning", "dl", "neural networks", "cnn", "rnn", "transformers"]) }
  function Nlp(): Entry { Entry("nlp", ["nlp", "natural language processing", "text mining", "spacy", "nltk"]) }
  function DataAnalysis(): Entry { Entry("data analysis", ["data analysis", "data analytics", "analytics", "business analysis"]) }
  function DataVisualization(): Entry { Entry("data visualization", ["data visualization", "visualization", "charts", "dashboards"]) }
  function Pandas(): Entry { Entry("pandas", ["pandas", "data manipulation", "dataframe"]) }
  function Numpy(): Entry { Entry("numpy", ["numpy", "numerical computing", "linear algebra"]) }
  function ScikitLearn(): Entry { Entry("scikit-learn", ["scikit-learn", "sklearn", "scikit learn"]) }
  function Tensorflow(): Entry { Entry("tensorflow", ["tensorflow", "tf", "tf2"]) }
  function Keras(): Entry { Entry("keras", ["keras", "tf-keras"]) }
  function Pytorch(): Entry { Entry("pytorch", ["pytorch", "torch"]) }
  function Tableau(): Entry { Entry("tableau", ["tableau", "tableau desktop", "tableau prep"]) }
  function PowerBi(): Entry { Entry("power bi", ["powerbi", "power bi", "ms powerbi"]) }
  function Eda(): Entry { Entry("eda", ["eda", "exploratory data analysis"]) }

  /** Databases. */
  function Databases(): Table
  {
    [Sql(), Nosql(), Database()]
  }

  function Sql(): Entry { Entry("sql", ["sql", "mysql", "postgresql", "postgres", "mssql", "oracle sql", "sqlite", "pl/sql"]) }
  function Nosql(): Entry { Entry("nosql", ["nosql", "mongodb", "cassandra", "dynamodb", "couchdb"]) }
  function Database(): Entry { Entry("database", ["database", "dbms", "db admin", "oracle", "rdbms"]) }

  /** Cloud & DevOps. */
  function CloudDevOps(): Table
  {
    [Aws(), Azure(), Gcp(), Docker(), Kubernetes(), Jenkins(), Terraform(), Linux(), Git()]
  }

  function Aws(): Entry { Entry("aws", ["aws", "amazon web services", "ec2", "s3", "lambda", "cloudwatch"]) }
  function Azure(): Entry { Entry("azure", ["azure", "microsoft azure", "azure cloud"]) }
  function Gcp(): Entry { Entry("gcp", ["gcp", "google cloud", "google cloud platform"]) }
  function Docker(): Entry { Entry("docker", ["docker", "docker containers"]) }
  function Kubernetes(): Entry { Entry("kubernetes", ["kubernetes", "k8s", "kube"]) }
  function Jenkins(): Entry { Entry("jenkins", ["jenkins", "ci/cd", "continuous integration"]) }
  function Terraform(): Entry { Entry("terraform", ["terraform", "iac", "infrastructure as code"]) }
  function Linux(): Entry { Entry("linux", ["linux", "ubuntu", "redhat", "debian", "centos"]) }
  function Git(): Entry { Entry("git", ["git", "github", "gitlab", "bitbucket", "version control"]) }

  /** Web Development. */
  function WebDevelopment(): Table
  {
    [Html(), Css(), React(), Angular(), Vue(), Node(), Express(), Django(), Flask(), Spring()]
  }

  function Html(): Entry { Entry("html", ["html", "html5"]) }
  function Css(): Entry { Entry("css", ["css", "css3", "tailwind", "bootstrap"]) }
  function React(): Entry { Entry("react", ["react", "react.js", "reactjs", "react native"]) }
  function Angular(): Entry { Entry("angular", ["angular", "angularjs"]) }
  function Vue(): Entry { Entry("vue", ["vue", "vue.js", "vuejs"]) }
  function Node(): Entry { Entry("node", ["node", "nodejs", "node.js"]) }
  function Express(): Entry { Entry("express", ["express", "expressjs"]) }
  function Django(): Entry { Entry("django", ["django", "django rest", "drf"]) }
  function Flask(): Entry { Entry("flask", ["flask", "flask api"]) }
  function Spring(): Entry { Entry("spring", ["spring", "spring boot", "spring framework"]) }

  /** Mobile Development. */
  function MobileDevelopment(): Table
  {
    [Android(), Ios(), Flutter(), ReactNative()]
  }

  function Android(): Entry { Entry("android", ["android", "android studio"]) }
  function Ios(): Entry { Entry("ios", ["ios", "apple ios", "swift ios"]) }
  function Flutter(): Entry { Entry("flutter", ["flutter", "dart", "flutter sdk"]) }
  function ReactNative(): Entry { Entry("react native", ["react native", "rn mobile"]) }

  /** Cybersecurity. */
  function Security(): Table
  {
    [Cybersecurity(), NetworkSecurity(), EthicalHacking(), Cryptography(), Siem()]
  }

  function Cybersecurity(): Entry { Entry("cybersecurity", ["cybersecurity", "information security", "infosec"]) }
  function NetworkSecurity(): Entry { Entry("network security", ["network security", "firewalls", "ids/ips"]) }
  function EthicalHacking(): Entry { Entry("ethical hacking", ["ethical hacking", "penetration testing", "pentesting", "bug bounty"]) }
  function Cryptography(): Entry { Entry("cryptography", ["cryptography", "crypto algorithms", "ssl/tls"]) }
  function Siem(): Entry { Entry("siem", ["siem", "splunk", "security monitoring"]) }

  /** UI/UX. */
  function UiUx(): Table
  {
    [UiDesign(), UxDesign(), Figma(), AdobeXd(), Photoshop(), Illustrator(), Wireframing()]
  }

  function UiDesign(): Entry { Entry("ui design", ["ui design", "user interface", "interface design"]) }
  function UxDesign(): Entry { Entry("ux design", ["ux design", "user experience", "interaction design"]) }
  function Figma(): Entry { Entry("figma", ["figma", "figma design"]) }
  function AdobeXd(): Entry { Entry("adobe xd", ["adobe xd", "xd"]) }
  function Photoshop(): Entry { Entry("photoshop", ["photoshop", "adobe photoshop"]) }
  function Illustrator(): Entry { Entry("illustrator", ["illustrator", "adobe illustrator"]) }
  function Wireframing(): Entry { Entry("wireframing", ["wireframing", "mockups", "prototyping"]) }

  /** Soft Skills. */
  function SoftSkills(): Table
  {
    [Communication(), ProblemSolving(), Teamwork(), Leadership(), CriticalThinking()]
  }

  function Communication(): Entry { Entry("communication", ["communication", "comm skills", "presentation skills"]) }
  function ProblemSolving(): Entry { Entry("problem solving", ["problem solving", "troubleshooting", "analytical thinking"]) }
  function Teamwork(): Entry { Entry("teamwork", ["teamwork", "collaboration", "working in teams"]) }
  function Leadership(): Entry { Entry("leadership", ["leadership", "team lead", "management"]) }
  function CriticalThinking(): Entry { Entry("critical thinking", ["critical thinking", "logical thinking", "reasoning"]) }
}

/** skill_matcher_db.py `SKILL_SYNONYMS`: the defaults of the database variant (23 entries). */
module DbSynonyms {
  import opened Canon

  function Synonyms(): Table
  {
    [
      Python(), Javascript(), Java(), Pandas(), Numpy(), React(), NodeJs(), Sql(),
      MachineLearning(), DeepLearning(), DataVisualization(), Statistics(), ScikitLearn(),
      Tensorflow(), Pytorch(), Docker(), Kubernetes(), Aws(), Azure(), Git(), RestApi(), Agile(),
      Communication()
    ]
  }

  function Python(): Entry { Entry("python", ["python", "py", "python3", "python programming"]) }
  function Javascript(): Entry { Entry("javascript", ["javascript", "js", "ecmascript", "es6", "es2015"]) }
  function Java(): Entry { Entry("java", ["java", "java programming"]) }
  function Pandas(): Entry { Entry("pandas", ["pandas", "pd"]) }
  function Numpy(): Entry { Entry("numpy", ["numpy", "np"]) }
  function React(): Entry { Entry("react", ["react", "reactjs", "react.js"]) }
  function NodeJs(): Entry { Entry("node.js", ["node", "nodejs", "node.js"]) }
  function Sql(): Entry { Entry("sql", ["sql", "mysql", "postgresql", "postgres", "structured query language"]) }
  function MachineLearning(): Entry { Entry("machine learning", ["machine learning", "ml", "statistical learning"]) }
  function DeepLearning(): Entry { Entry("deep learning", ["deep learning", "dl", "neural networks"]) }
  function DataVisualization(): Entry { Entry("data visualization", ["data visualization", "visualization", "matplotlib", "seaborn", "plotly"]) }
  function Statistics(): Entry { Entry("statistics", ["statistics", "stats", "statistical analysis"]) }
  function ScikitLearn(): Entry { Entry("scikit-learn", ["scikit-learn", "sklearn", "scikit learn"]) }
  function Tensorflow(): Entry { Entry("tensorflow", ["tensorflow", "tf"]) }
  function Pytorch(): Entry { Entry("pytorch", ["pytorch", "torch"]) }
  function Docker(): Entry { Entry("docker", ["docker", "containerization"]) }
  function Kubernetes(): Entry { Entry("kubernetes", ["kubernetes", "k8s"]) }
  function Aws(): Entry { Entry("aws", ["aws", "amazon web services", "amazon aws"]) }
  function Azure(): Entry { Entry("azure", ["azure", "microsoft azure"]) }
  function Git(): Entry { Entry("git", ["git", "github", "gitlab", "version control"]) }
  function RestApi(): Entry { Entry("rest api", ["rest", "rest api", "restful", "api"]) }
  function Agile(): Entry { Entry("agile", ["agile", "scrum", "agile methodology"]) }
  function Communication(): Entry { Entry("communication", ["communication", "communication skills", "verbal communication"]) }
}
